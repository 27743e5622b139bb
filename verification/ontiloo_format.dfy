/** Ontiloo's date-time text, `MM/DD/YYYY HH:mm`, which both `formatOntilooMDYHM`
    (src/time.js) and `toOntilooDateTime` (src/validators.js) write. */
module OntilooFormat {
  import opened Text

  /** The template `${MM}/${DD}/${YYYY} ${HH}:${mm}` filled with the given pieces. */
  function Layout(mm: string, dd: string, yy: string, hh: string, mi: string): string {
    mm + "/" + dd + "/" + yy + " " + hh + ":" + mi
  }

  /** `MM/DD/YYYY HH:mm`: sixteen characters, digits except the two slashes, the space
      and the colon. */
  predicate OntilooShape(s: string) {
    && |s| == 16 && s[2] == '/' && s[5] == '/' && s[10] == ' ' && s[13] == ':'
    && forall i :: 0 <= i < 16 && i != 2 && i != 5 && i != 10 && i != 13 ==> IsDigit(s[i])
  }

  /** The layout of the template on fields of the right widths. */
  lemma LayoutShape(mm: string, dd: string, yy: string, hh: string, mi: string)
    requires |mm| == 2 && |dd| == 2 && |yy| == 4 && |hh| == 2 && |mi| == 2
    requires AllDigits(mm) && AllDigits(dd) && AllDigits(yy) && AllDigits(hh) && AllDigits(mi)
    ensures var s := Layout(mm, dd, yy, hh, mi);
      && OntilooShape(s)
      && s[0..2] == mm && s[3..5] == dd && s[6..10] == yy && s[11..13] == hh && s[14..16] == mi
  {
    var date := mm + "/" + dd + "/" + yy;
    var time := hh + ":" + mi;
    var s := Layout(mm, dd, yy, hh, mi);
    assert s == date + " " + time;
    DateSlices(mm, dd, yy);
    TimeSlices(hh, mi);
    assert s[0..10] == date && s[11..16] == time;
    assert s[0..2] == date[0..2] && s[3..5] == date[3..5] && s[6..10] == date[6..10];
    assert s[11..13] == time[0..2] && s[14..16] == time[3..5];
    forall i | 0 <= i < 16 && i != 2 && i != 5 && i != 10 && i != 13 ensures IsDigit(s[i]) {
      if i < 10 {
        assert s[i] == date[i];
      } else {
        assert s[i] == time[i - 11];
      }
    }
  }

  lemma DateSlices(mm: string, dd: string, yy: string)
    requires |mm| == 2 && |dd| == 2 && |yy| == 4 && AllDigits(mm) && AllDigits(dd) && AllDigits(yy)
    ensures var d := mm + "/" + dd + "/" + yy;
      && |d| == 10 && d[0..2] == mm && d[2] == '/' && d[3..5] == dd && d[5] == '/' && d[6..10] == yy
      && forall i :: 0 <= i < 10 && i != 2 && i != 5 ==> IsDigit(d[i])
  {
    var d := mm + "/" + dd + "/" + yy;
    forall i | 0 <= i < 10 && i != 2 && i != 5 ensures IsDigit(d[i]) {
      if i < 2 {
        assert d[i] == mm[i];
      } else if i < 5 {
        assert d[i] == dd[i - 3];
      } else {
        assert d[i] == yy[i - 6];
      }
    }
  }

  lemma TimeSlices(hh: string, mi: string)
    requires |hh| == 2 && |mi| == 2 && AllDigits(hh) && AllDigits(mi)
    ensures var d := hh + ":" + mi;
      && |d| == 5 && d[0..2] == hh && d[2] == ':' && d[3..5] == mi
      && forall i :: 0 <= i < 5 && i != 2 ==> IsDigit(d[i])
  {
    var d := hh + ":" + mi;
    forall i | 0 <= i < 5 && i != 2 ensures IsDigit(d[i]) {
      if i < 2 {
        assert d[i] == hh[i];
      } else {
        assert d[i] == mi[i - 3];
      }
    }
  }
}
