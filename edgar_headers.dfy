/**
 * The header fields `get_latest_8k_filings` slices out of the EDGAR
 * "current events" table, and `check_penny_stock`'s decision once the price
 * lookup has answered.
 */
module EdgarHeaders {
  import opened PyStr

  /** The company cell's link text, e.g. "Acme Corp (0000123456) (Filer)". */
  datatype Company = Company(name: string, cik: string)

  /** The filing description, e.g. "Current report, items 1.01 and 9.01
      Accession Number: 0000123456-24-000001 Act: 34 Size: 2 MB". */
  datatype Description = Description(items: string, accession: string)

  /** `company_text[:find('(')].strip()` and
      `company_text[find('(') + 1:find(')')].strip()`. */
  function ParseCompany(text: string): Company {
    var open := Find(text, "(", 0);
    Company(Strip(Slice(text, 0, open)), Strip(Slice(text, open + 1, Find(text, ")", 0))))
  }

  /** `filing_desc[find('items') + 5:find('Accession')].strip()` and
      `filing_desc[find('Accession Number:') + 17:find('Act')].strip()`. */
  function ParseDescription(desc: string): Description {
    Description(
      Strip(Slice(desc, Find(desc, "items", 0) + 5, Find(desc, "Accession", 0))),
      Strip(Slice(desc, Find(desc, "Accession Number:", 0) + 17, Find(desc, "Act", 0))))
  }

  /** `'items 1.01' in filing_desc.lower()`: the row is an Item 1.01 filing. */
  predicate ReportsItem101(desc: string) {
    Contains(Lower(desc), "items 1.01")
  }

  /** The characters of `s` from `j` on spell the lower-case `p` up to
      ASCII case. */
  predicate AtIgnoringCase(s: string, p: string, j: int) {
    0 <= j && j + |p| <= |s| && forall k :: 0 <= k < |p| ==> LowerChar(s[j + k]) == p[k]
  }

  /** `p` occurs in the lowered text exactly where the text spells it up to
      ASCII case. */
  lemma LowerAt(s: string, p: string, j: int)
    ensures At(Lower(s), p, j) <==> AtIgnoringCase(s, p, j)
  {
    if 0 <= j && j + |p| <= |s| {
      var l := Lower(s)[j..j + |p|];
      assert forall k :: 0 <= k < |p| ==> l[k] == LowerChar(s[j + k]);
    }
  }

  /** The Item 1.01 test holds exactly when "items 1.01" occurs in the
      description in any mix of ASCII case ("Items 1.01", "ITEMS 1.01", ...). */
  lemma ReportsItem101Iff(desc: string)
    ensures ReportsItem101(desc) <==> exists j :: AtIgnoringCase(desc, "items 1.01", j)
  {
    var p := "items 1.01";
    FindAbsent(Lower(desc), p, 0);
    if ReportsItem101(desc) {
      var j := Find(Lower(desc), p, 0);
      LowerAt(desc, p, j);
    }
    if j :| AtIgnoringCase(desc, p, j) {
      LowerAt(desc, p, j);
    }
  }

  /** `find` from 0 answers the first occurrence. */
  lemma FindFirst(s: string, p: string, j: int)
    requires FirstAt(s, p, j)
    ensures Find(s, p, 0) == j
  {
  }

  /** A single character occurs exactly where it stands. */
  lemma AtChar(s: string, c: char, j: int)
    requires 0 <= j < |s|
    ensures At(s, [c], j) <==> s[j] == c
  {
    if s[j] == c {
      assert s[j..j + 1] == [c];
    } else {
      assert s[j..j + 1][0] == s[j];
    }
  }

  lemma FirstChar(s: string, c: char, j: int)
    requires 0 <= j < |s| && s[j] == c
    requires forall k :: 0 <= k < j ==> s[k] != c
    ensures FirstAt(s, [c], j)
  {
    AtChar(s, c, j);
    forall k | 0 <= k < j ensures !At(s, [c], k) {
      AtChar(s, c, k);
    }
  }

  /** When the text has a '(' and a later ')', the name is the stripped text
      before the first '(' and the CIK the stripped text between the first
      '(' and the first ')'. */
  lemma ParseCompanyParenthesised(text: string, i: int, j: int)
    requires 0 <= i < j < |text|
    requires text[i] == '(' && forall k :: 0 <= k < i ==> text[k] != '('
    requires text[j] == ')' && forall k :: 0 <= k < j ==> text[k] != ')'
    ensures ParseCompany(text) == Company(Strip(text[..i]), Strip(text[i + 1..j]))
  {
    FirstChar(text, '(', i);
    FirstChar(text, ')', j);
    FindFirst(text, "(", i);
    FindFirst(text, ")", j);
    var open, close := Find(text, "(", 0), Find(text, ")", 0);
    assert open == i && close == j;
    assert Slice(text, 0, open) == text[..i];
    assert Slice(text, open + 1, close) == text[i + 1..j];
  }

  /** Without a '(' the name loses the text's last character, since
      `find` answers -1 and `[:-1]` drops it. */
  lemma ParseCompanyUnparenthesised(text: string)
    requires text != []
    requires forall k :: 0 <= k < |text| ==> text[k] != '('
    ensures ParseCompany(text).name == Strip(text[..|text| - 1])
  {
    forall k | 0 <= k ensures !At(text, "(", k) {
      if k < |text| { AtChar(text, '(', k); }
    }
    assert Find(text, "(", 0) == -1;
    assert Slice(text, 0, -1) == text[..|text| - 1];
  }

  /** With the markers in their usual order, the items are the stripped text
      between "items" and "Accession", and the accession number the stripped
      text between "Accession Number:" and "Act". */
  lemma ParseDescriptionOrdered(desc: string, i: int, a: int, n: int, t: int)
    requires FirstAt(desc, "items", i) && FirstAt(desc, "Accession", a)
    requires FirstAt(desc, "Accession Number:", n) && FirstAt(desc, "Act", t)
    requires i + 5 <= a && n + 17 <= t
    ensures ParseDescription(desc) == Description(Strip(desc[i + 5..a]), Strip(desc[n + 17..t]))
  {
    var d := ParseDescription(desc);
    assert d.items == Strip(desc[i + 5..a]) by {
      FindFirst(desc, "items", i);
      FindFirst(desc, "Accession", a);
      SliceCases(desc, i + 5, a);
    }
    assert d.accession == Strip(desc[n + 17..t]) by {
      FindFirst(desc, "Accession Number:", n);
      FindFirst(desc, "Act", t);
      SliceCases(desc, n + 17, t);
    }
  }

  predicate IsDigit(c: char) {
    '0' <= c <= '9'
  }

  /** `str(cik).zfill(10)` on a digit string is at least ten long, ends with
      the CIK and is padded on the left with '0' only. */
  lemma ZFillDigits(s: string)
    requires forall i :: 0 <= i < |s| ==> IsDigit(s[i])
    ensures var r := ZFill(s, 10);
      && |r| == (if |s| >= 10 then |s| else 10)
      && r[|r| - |s|..] == s
      && forall i :: 0 <= i < |r| - |s| ==> r[i] == '0'
  {
    if |s| > 0 {
      assert s[0] != '+' && s[0] != '-' by { assert IsDigit(s[0]); }
    }
  }

  /** A leading sign stays in front of the padding. */
  lemma ZFillSigned(s: string)
    requires s != [] && (s[0] == '+' || s[0] == '-') && |s| < 10
    ensures var r := ZFill(s, 10);
      && |r| == 10 && r[0] == s[0] && r[10 - |s| + 1..] == s[1..]
      && forall i :: 1 <= i <= 10 - |s| ==> r[i] == '0'
  {
  }

  /** What the price lookup behind `check_penny_stock` answered for a
      10-digit CIK: the last daily close, a request failure, or any other
      failure (no ticker listed, no price history), which escapes. */
  datatype Quote = Close(price: real) | RequestFailed | OtherFailure

  datatype PennyCheck = IsPenny | NotPenny | Escaped

  /** `check_penny_stock(cik)`: a close under 5 or a failed request counts as
      a penny stock; any other failure escapes to the caller. */
  function CheckPennyStock(cik: string, quote: string -> Quote): PennyCheck {
    match quote(ZFill(cik, 10))
    case Close(p) => if p < 5.0 then IsPenny else NotPenny
    case RequestFailed => IsPenny
    case OtherFailure => Escaped
  }

  /** A stock passes the check exactly when its padded CIK was quoted at 5
      or more; a failed request never lets it pass. */
  lemma NotPennyIff(cik: string, quote: string -> Quote)
    ensures CheckPennyStock(cik, quote) == NotPenny <==>
      quote(ZFill(cik, 10)).Close? && quote(ZFill(cik, 10)).price >= 5.0
    ensures quote(ZFill(cik, 10)) == RequestFailed ==> CheckPennyStock(cik, quote) == IsPenny
  {
  }
}
