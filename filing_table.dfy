/**
 * The `analyzed_filings` table of `filing_analysis.db`: one row per
 * accession number (its primary key) holding the CIK, the filing date, the
 * sentiment text and the date the analysis was stored.
 */
module FilingTable {
  import opened Wrappers

  datatype Analysis = Analysis(cik: string, filingDate: string, sentiment: string, analysisDate: string)

  /** The table's rows, keyed by accession number. */
  type Table = map<string, Analysis>

  /** SQLite's `<` on TEXT under the default BINARY collation: the dates are
      compared as strings, character by character, a proper prefix first. */
  predicate TextLess(a: string, b: string)
    decreases |a|
  {
    if a == [] then b != []
    else if b == [] then false
    else if a[0] != b[0] then a[0] < b[0]
    else TextLess(a[1..], b[1..])
  }

  /** `INSERT OR REPLACE` of one analysis stored on day `today`. */
  function Insert(t: Table, cik: string, filingDate: string, accession: string,
                  sentiment: string, today: string): Table
  {
    t[accession := Analysis(cik, filingDate, sentiment, today)]
  }

  /** `is_filing_analyzed`: the stored sentiment of the row whose CIK,
      filing date and accession number all match, or `None`. */
  function Lookup(t: Table, cik: string, filingDate: string, accession: string): Option<string> {
    if accession in t && t[accession].cik == cik && t[accession].filingDate == filingDate
    then Some(t[accession].sentiment)
    else None
  }

  /** `DELETE FROM analyzed_filings WHERE analysis_date < cutoff`. */
  function Clean(t: Table, cutoff: string): Table {
    map acc | acc in t && !TextLess(t[acc].analysisDate, cutoff) :: t[acc]
  }

  /** The database file, whose one table the scraper changes in place. */
  class AnalyzedFilings {
    var rows: Table

    /** `initialize_database` on a database that does not exist yet. */
    constructor ()
      ensures rows == map[]
    {
      rows := map[];
    }

    /** `store_analysis(cik, filing_date, accession_number, sentiment)` on
        day `today`. */
    method StoreAnalysis(cik: string, filingDate: string, accession: string,
                         sentiment: string, today: string)
      modifies this
      ensures rows == Insert(old(rows), cik, filingDate, accession, sentiment, today)
    {
      rows := rows[accession := Analysis(cik, filingDate, sentiment, today)];
    }

    /** `clean_old_entries`, with the cutoff date (the day four days before
        today, as 'YYYY-MM-DD') passed in. */
    method CleanOldEntries(cutoff: string)
      modifies this
      ensures rows == Clean(old(rows), cutoff)
    {
      rows := map acc | acc in rows && !TextLess(rows[acc].analysisDate, cutoff) :: rows[acc];
    }
  }

  /** After storing, the same CIK, date and accession find the new sentiment;
      a lookup whose CIK or date differs from the stored row finds nothing. */
  lemma LookupAfterInsert(t: Table, cik: string, filingDate: string, accession: string,
                          sentiment: string, today: string, cik': string, filingDate': string)
    ensures Lookup(Insert(t, cik, filingDate, accession, sentiment, today), cik, filingDate, accession)
      == Some(sentiment)
    ensures cik' != cik || filingDate' != filingDate ==>
      Lookup(Insert(t, cik, filingDate, accession, sentiment, today), cik', filingDate', accession) == None
  {
  }

  /** Storing replaces at most the one row with that accession number and
      leaves every other row as it was. */
  lemma InsertKeepsOthers(t: Table, cik: string, filingDate: string, accession: string,
                          sentiment: string, today: string)
    ensures var t' := Insert(t, cik, filingDate, accession, sentiment, today);
      && t'.Keys == t.Keys + {accession}
      && |t'| == (if accession in t then |t| else |t| + 1)
      && forall acc :: acc in t && acc != accession ==> t'[acc] == t[acc]
  {
    var t' := Insert(t, cik, filingDate, accession, sentiment, today);
    if accession in t {
      assert t'.Keys == t.Keys;
    } else {
      assert t'.Keys == t.Keys + {accession};
    }
  }

  /** Cleaning removes exactly the rows analysed before the cutoff and leaves
      every other row untouched. */
  lemma CleanExact(t: Table, cutoff: string)
    ensures forall acc :: acc in Clean(t, cutoff) <==> acc in t && !TextLess(t[acc].analysisDate, cutoff)
    ensures forall acc :: acc in Clean(t, cutoff) ==> Clean(t, cutoff)[acc] == t[acc]
  {
  }

  /** A calendar day written 'YYYY-MM-DD'. */
  predicate IsIsoDate(d: string) {
    && |d| == 10 && d[4] == '-' && d[7] == '-'
    && AllDigits(d[..4]) && AllDigits(d[5..7]) && AllDigits(d[8..])
  }

  predicate AllDigits(s: string) {
    forall i :: 0 <= i < |s| ==> '0' <= s[i] <= '9'
  }

  function DigitValue(c: char): int {
    c as int - '0' as int
  }

  function Pow10(n: nat): (r: int)
    ensures r >= 1
  {
    if n == 0 then 1 else 10 * Pow10(n - 1)
  }

  /** The value of the decimal numeral `s`. */
  function Numeral(s: string): int {
    if s == [] then 0 else DigitValue(s[0]) * Pow10(|s| - 1) + Numeral(s[1..])
  }

  /** `a` is an earlier calendar day than `b`. */
  predicate DayBefore(a: string, b: string)
    requires IsIsoDate(a) && IsIsoDate(b)
  {
    var ya, ma, da := Numeral(a[..4]), Numeral(a[5..7]), Numeral(a[8..]);
    var yb, mb, db := Numeral(b[..4]), Numeral(b[5..7]), Numeral(b[8..]);
    ya < yb || (ya == yb && (ma < mb || (ma == mb && da < db)))
  }

  lemma PlaceValueLess(x: int, y: int, p: int, r1: int, r2: int)
    requires 0 <= x < y && 0 <= r1 < p && 0 <= r2
    ensures x * p + r1 < y * p + r2
  {
    assert (y - x - 1) * p >= 0;
    assert y * p == x * p + p + (y - x - 1) * p;
  }

  lemma {:induction false} NumeralBounds(s: string)
    requires AllDigits(s)
    ensures 0 <= Numeral(s) < Pow10(|s|)
    decreases |s|
  {
    if s != [] {
      var rest := s[1..];
      assert AllDigits(rest) by {
        forall i | 0 <= i < |rest| ensures '0' <= rest[i] <= '9' { assert rest[i] == s[i + 1]; }
      }
      NumeralBounds(rest);
      var d, p := DigitValue(s[0]), Pow10(|s| - 1);
      assert 0 <= d <= 9;
      assert Pow10(|s|) == 10 * p;
      assert Numeral(s) == d * p + Numeral(rest);
      PlaceValueLess(d, 10, p, Numeral(rest), 0);
    }
  }

  /** Equal-length numerals compare as strings as they do as numbers. */
  lemma {:induction false} NumeralOrder(a: string, b: string)
    requires |a| == |b| && AllDigits(a) && AllDigits(b)
    ensures TextLess(a, b) <==> Numeral(a) < Numeral(b)
    ensures a == b <==> Numeral(a) == Numeral(b)
    decreases |a|
  {
    if a != [] {
      var ra, rb := a[1..], b[1..];
      NumeralOrder(ra, rb);
      NumeralBounds(ra);
      NumeralBounds(rb);
      var p := Pow10(|a| - 1);
      var x, y := DigitValue(a[0]), DigitValue(b[0]);
      if a[0] < b[0] {
        PlaceValueLess(x, y, p, Numeral(ra), Numeral(rb));
      } else if b[0] < a[0] {
        PlaceValueLess(y, x, p, Numeral(rb), Numeral(ra));
      } else {
        assert a == b <==> ra == rb by {
          if ra == rb { assert a == [a[0]] + ra && b == [b[0]] + rb; }
        }
      }
    }
  }

  /** Comparing equal-length strings followed by others: the first parts
      decide unless they are equal. */
  lemma {:induction false} TextLessConcat(a: string, b: string, c: string, d: string)
    requires |a| == |b|
    ensures TextLess(a + c, b + d) <==> TextLess(a, b) || (a == b && TextLess(c, d))
    decreases |a|
  {
    if a != [] {
      assert (a + c)[0] == a[0] && (b + d)[0] == b[0];
      assert (a + c)[1..] == a[1..] + c;
      assert (b + d)[1..] == b[1..] + d;
      TextLessConcat(a[1..], b[1..], c, d);
      if a[0] == b[0] {
        assert a == b <==> a[1..] == b[1..] by {
          if a[1..] == b[1..] { assert a == [a[0]] + a[1..]; assert b == [b[0]] + b[1..]; }
        }
      }
    } else {
      assert a + c == c && b + d == d;
    }
  }

  /** On 'YYYY-MM-DD' dates the string comparison `clean_old_entries` relies
      on is the calendar order. */
  lemma IsoDateOrder(a: string, b: string)
    requires IsIsoDate(a) && IsIsoDate(b)
    ensures TextLess(a, b) <==> DayBefore(a, b)
  {
    var ya, ma, da := a[..4], a[5..7], a[8..];
    var yb, mb, db := b[..4], b[5..7], b[8..];
    assert a == ya + ("-" + (ma + ("-" + da)));
    assert b == yb + ("-" + (mb + ("-" + db)));
    NumeralOrder(ya, yb);
    NumeralOrder(ma, mb);
    NumeralOrder(da, db);
    TextLessConcat(ya, yb, "-" + (ma + ("-" + da)), "-" + (mb + ("-" + db)));
    TextLessConcat("-", "-", ma + ("-" + da), mb + ("-" + db));
    TextLessConcat(ma, mb, "-" + da, "-" + db);
    TextLessConcat("-", "-", da, db);
  }

  /** With ISO dates throughout, cleaning keeps exactly the rows analysed on
      or after the cutoff day. */
  lemma CleanKeepsRecent(t: Table, cutoff: string)
    requires IsIsoDate(cutoff)
    requires forall acc :: acc in t ==> IsIsoDate(t[acc].analysisDate)
    ensures forall acc :: acc in Clean(t, cutoff) <==> acc in t && !DayBefore(t[acc].analysisDate, cutoff)
  {
    forall acc | acc in t
      ensures TextLess(t[acc].analysisDate, cutoff) <==> DayBefore(t[acc].analysisDate, cutoff)
    {
      IsoDateOrder(t[acc].analysisDate, cutoff);
    }
  }
}
