/**
 * The selection loop of the second `get_latest_8k_filings`: walk the rows of
 * the EDGAR current-events page, keep the Item 1.01 filings of companies that
 * are not penny stocks, reuse a sentiment already stored for the filing (or
 * skip the filing when asked to), otherwise fetch the section, ask for a
 * sentiment and store it, and stop once `limit` filings are collected.
 */
module FilingSelection {
  import opened Wrappers
  import opened PyStr
  import opened Item101
  import opened EdgarHeaders
  import opened FilingTable

  /** A `<td>` of the page: its text as `get_text(strip=True)` gives it and the
      `href`s of its links. */
  datatype Cell = Cell(text: string, links: seq<string>)

  /** A `<tr>` of the page: the text of the link in its grey company cell,
      when it has such a cell with a link, and its cells. */
  datatype Row = Row(companyLink: Option<string>, cells: seq<Cell>)

  datatype Status = Existing | New

  /** One record of the returned data frame. */
  datatype Filing = Filing(
    company: string, cik: string, items: string, filingDate: string, accession: string,
    content: Option<string>, sentiment: Option<string>, status: Status)

  /** The answers of the network collaborators: the price lookup for a
      10-digit CIK, the downloaded text behind a filing's index link (`None`
      when there is no `.txt` link or a request fails), and the sentiment
      service's reply for an Item 1.01 text (`None` when the call fails). */
  datatype Services = Services(
    quote: string -> Quote,
    document: string -> Option<string>,
    analyze: string -> Option<string>)

  /** Python truthiness of an optional string. */
  predicate Truthy(o: Option<string>) {
    o.Some? && o.value != []
  }

  /** The loop's state: the records appended so far, the table, the number of
      sentiment requests made, and whether an exception has escaped. */
  datatype Progress = Progress(collected: seq<Filing>, table: Table, sentimentRequests: nat, raised: bool)

  /** `get_8k_content(filing_link, headers)`. */
  function Content(svc: Services, link: string): Option<string> {
    var fetched := svc.document(link);
    if fetched.None? then None else Item101Section(fetched.value)
  }

  /** The returned record for a filing. */
  function Record(company: Company, header: Description, filingDate: string,
                  content: Option<string>, sentiment: Option<string>, status: Status): Filing
  {
    Filing(company.name, company.cik, header.items, filingDate, header.accession, content, sentiment, status)
  }

  /** One pass of the loop body on row `i`. An `IndexError` (no row after a
      company row, no link in the filing's second cell) or an exception out
      of `check_penny_stock` other than a request error sets `raised`. */
  function Visit(rows: seq<Row>, i: nat, skipKnown: bool, svc: Services, today: string,
                 p: Progress): Progress
    requires i < |rows|
  {
    match rows[i].companyLink
    case None => p
    case Some(text) =>
      if i + 1 >= |rows| then p.(raised := true)
      else VisitFiling(ParseCompany(text), rows[i + 1].cells, skipKnown, svc, today, p)
  }

  /** The company's filing row: only Item 1.01 filings of stocks that pass
      the penny check go further. */
  function VisitFiling(company: Company, cols: seq<Cell>, skipKnown: bool, svc: Services,
                       today: string, p: Progress): Progress
  {
    if |cols| < 4 || !ReportsItem101(cols[2].text) then p
    else match CheckPennyStock(company.cik, svc.quote)
      case Escaped => p.(raised := true)
      case IsPenny => p
      case NotPenny =>
        VisitEligible(company, ParseDescription(cols[2].text), cols[3].text, cols[1].links,
                      skipKnown, svc, today, p)
  }

  /** An eligible filing: reuse or skip a stored sentiment, else fetch the
      section and ask for one. */
  function VisitEligible(company: Company, header: Description, filingDate: string,
                         links: seq<string>, skipKnown: bool, svc: Services, today: string,
                         p: Progress): Progress
  {
    var existing := Lookup(p.table, company.cik, filingDate, header.accession);
    if Truthy(existing) && skipKnown then p
    else if Truthy(existing) then
      p.(collected := p.collected + [Record(company, header, filingDate, None, existing, Existing)])
    else if links == [] then p.(raised := true)
    else Analyse(company, header, filingDate, Content(svc, links[0]), svc, today, p)
  }

  /** A filing not analysed before: a non-empty section is sent for
      sentiment, a non-empty sentiment is stored, and the record is kept. */
  function Analyse(company: Company, header: Description, filingDate: string,
                   content: Option<string>, svc: Services, today: string, p: Progress): Progress
  {
    var sentiment := if Truthy(content) then svc.analyze(content.value) else None;
    var table := if Truthy(content) && Truthy(sentiment)
      then Insert(p.table, company.cik, filingDate, header.accession, sentiment.value, today)
      else p.table;
    Progress(p.collected + [Record(company, header, filingDate, content, sentiment, New)],
             table, p.sentimentRequests + (if Truthy(content) then 1 else 0), p.raised)
  }

  /** The loop from row `i` on: it runs while rows remain, fewer than `limit`
      records are collected and nothing has escaped. */
  function Scan(rows: seq<Row>, i: nat, limit: int, skipKnown: bool, svc: Services, today: string,
                p: Progress): Progress
    decreases |rows| - i
  {
    if p.raised || i >= |rows| || |p.collected| >= limit then p
    else Scan(rows, i + 1, limit, skipKnown, svc, today, Visit(rows, i, skipKnown, svc, today, p))
  }

  /** The whole call: the table is cleaned first, then the rows are scanned. */
  function Select(rows: seq<Row>, limit: int, skipKnown: bool, svc: Services, today: string,
                  cutoff: string, t: Table): Progress
  {
    Scan(rows, 0, limit, skipKnown, svc, today, Progress([], Clean(t, cutoff), 0, false))
  }

  /** `get_latest_8k_filings(api_key, limit, skip_known)` on the rows of the
      page, with `today` the analysis date and `cutoff` the day four days
      earlier. It returns the data frame's records (empty when an exception
      escaped) and the number of sentiment requests made. */
  method GetLatest8kFilings(db: AnalyzedFilings, rows: seq<Row>, limit: int, skipKnown: bool,
                            svc: Services, today: string, cutoff: string)
    returns (filings: seq<Filing>, sentimentRequests: nat)
    modifies db
    ensures var r := Select(rows, limit, skipKnown, svc, today, cutoff, old(db.rows));
      && filings == (if r.raised then [] else r.collected)
      && db.rows == r.table
      && sentimentRequests == r.sentimentRequests
  {
    db.CleanOldEntries(cutoff);
    ghost var start := Progress([], db.rows, 0, false);
    var collected: seq<Filing> := [];
    var raised := false;
    sentimentRequests := 0;
    var i := 0;
    while i < |rows| && |collected| < limit && !raised
      invariant i <= |rows|
      invariant Scan(rows, i, limit, skipKnown, svc, today, Progress(collected, db.rows, sentimentRequests, raised))
        == Scan(rows, 0, limit, skipKnown, svc, today, start)
      decreases |rows| - i
    {
      collected, sentimentRequests, raised := ProcessRow(db, rows, i, skipKnown, svc, today, collected, sentimentRequests);
      i := i + 1;
    }
    filings := if raised then [] else collected;
  }

  /** The loop body on row `i`. */
  method ProcessRow(db: AnalyzedFilings, rows: seq<Row>, i: nat, skipKnown: bool, svc: Services,
                    today: string, collected0: seq<Filing>, sentimentRequests0: nat)
    returns (collected: seq<Filing>, sentimentRequests: nat, raised: bool)
    requires i < |rows|
    modifies db
    ensures Progress(collected, db.rows, sentimentRequests, raised)
      == Visit(rows, i, skipKnown, svc, today, Progress(collected0, old(db.rows), sentimentRequests0, false))
  {
    collected, sentimentRequests, raised := collected0, sentimentRequests0, false;
    var row := rows[i];
    if row.companyLink.None? {
      return;
    }
    var company := ParseCompany(row.companyLink.value);
    if i + 1 >= |rows| {
      raised := true;
      return;
    }
    collected, sentimentRequests, raised := ProcessFiling(db, company, rows[i + 1].cells, skipKnown, svc, today,
                                                collected, sentimentRequests);
  }

  /** The loop body once the company is known, on the row after it. */
  method ProcessFiling(db: AnalyzedFilings, company: Company, cols: seq<Cell>, skipKnown: bool,
                       svc: Services, today: string, collected0: seq<Filing>, sentimentRequests0: nat)
    returns (collected: seq<Filing>, sentimentRequests: nat, raised: bool)
    modifies db
    ensures Progress(collected, db.rows, sentimentRequests, raised)
      == VisitFiling(company, cols, skipKnown, svc, today, Progress(collected0, old(db.rows), sentimentRequests0, false))
  {
    collected, sentimentRequests, raised := collected0, sentimentRequests0, false;
    if |cols| < 4 || !ReportsItem101(cols[2].text) {
      return;
    }
    var penny := CheckPennyStock(company.cik, svc.quote);
    if penny == Escaped {
      raised := true;
    } else if penny == NotPenny {
      var header := ParseDescription(cols[2].text);
      collected, sentimentRequests, raised := ProcessEligible(db, company, header, cols[3].text, cols[1].links,
                                                    skipKnown, svc, today, collected, sentimentRequests);
    }
  }

  /** The loop body for an eligible filing: reuse a stored sentiment (or
      skip the filing), else fetch its section, ask for a sentiment when the
      section is non-empty, store a non-empty one, and append the record. */
  method ProcessEligible(db: AnalyzedFilings, company: Company, header: Description, filingDate: string,
                         links: seq<string>, skipKnown: bool, svc: Services, today: string,
                         collected0: seq<Filing>, sentimentRequests0: nat)
    returns (collected: seq<Filing>, sentimentRequests: nat, raised: bool)
    modifies db
    ensures Progress(collected, db.rows, sentimentRequests, raised)
      == VisitEligible(company, header, filingDate, links, skipKnown, svc, today,
                       Progress(collected0, old(db.rows), sentimentRequests0, false))
  {
    collected, sentimentRequests, raised := collected0, sentimentRequests0, false;
    var existing := Lookup(db.rows, company.cik, filingDate, header.accession);
    if Truthy(existing) && skipKnown {
      return;
    }
    var content: Option<string> := None;
    var sentiment: Option<string> := None;
    if Truthy(existing) {
      sentiment := existing;
    } else if links == [] {
      raised := true;
      return;
    } else {
      content := Get8kContent(svc.document(links[0]));
      assert content == Content(svc, links[0]);
      sentiment, sentimentRequests := AnalyseContent(db, company.cik, filingDate, header.accession, content,
                                           svc, today, sentimentRequests);
    }
    collected := collected + [Record(company, header, filingDate, content, sentiment,
                                     if Truthy(existing) then Existing else New)];
  }

  /** The sentiment request for a newly fetched section and the store of a
      non-empty answer. */
  method AnalyseContent(db: AnalyzedFilings, cik: string, filingDate: string, accession: string,
                        content: Option<string>, svc: Services, today: string, sentimentRequests0: nat)
    returns (sentiment: Option<string>, sentimentRequests: nat)
    modifies db
    ensures sentiment == (if Truthy(content) then svc.analyze(content.value) else None)
    ensures sentimentRequests == sentimentRequests0 + (if Truthy(content) then 1 else 0)
    ensures db.rows == if Truthy(content) && Truthy(sentiment)
      then Insert(old(db.rows), cik, filingDate, accession, sentiment.value, today)
      else old(db.rows)
  {
    sentiment, sentimentRequests := None, sentimentRequests0;
    if Truthy(content) {
      sentiment := svc.analyze(content.value);
      sentimentRequests := sentimentRequests + 1;
      if Truthy(sentiment) {
        db.StoreAnalysis(cik, filingDate, accession, sentiment.value, today);
      }
    }
  }

  /** What every collected record satisfies: it passed the penny check; a
      reused sentiment is non-empty and comes without content, and only when
      known filings are not skipped; a new record's sentiment is the
      service's answer for its content, asked only when there is content. */
  predicate WellFormed(f: Filing, skipKnown: bool, svc: Services) {
    && CheckPennyStock(f.cik, svc.quote) == NotPenny
    && (f.status == Existing ==> !skipKnown && f.content == None && Truthy(f.sentiment))
    && (f.status == New ==> f.sentiment == (if Truthy(f.content) then svc.analyze(f.content.value) else None))
  }

  /** A new record whose content and sentiment are both non-empty. */
  predicate Stores(f: Filing) {
    f.status == New && Truthy(f.content) && Truthy(f.sentiment)
  }

  /** The table after the stores the records `fs` caused, in order. */
  function StoreNew(t: Table, fs: seq<Filing>, today: string): Table
    decreases |fs|
  {
    if fs == [] then t
    else
      var f := fs[|fs| - 1];
      var t' := StoreNew(t, fs[..|fs| - 1], today);
      if Stores(f) then Insert(t', f.cik, f.filingDate, f.accession, f.sentiment.value, today) else t'
  }

  /** The number of sentiment requests behind the records `fs`. */
  function Calls(fs: seq<Filing>): nat
    decreases |fs|
  {
    if fs == [] then 0
    else Calls(fs[..|fs| - 1]) + (if fs[|fs| - 1].status == New && Truthy(fs[|fs| - 1].content) then 1 else 0)
  }

  lemma {:induction false} StoreNewAppend(t: Table, a: seq<Filing>, b: seq<Filing>, today: string)
    ensures StoreNew(t, a + b, today) == StoreNew(StoreNew(t, a, today), b, today)
    ensures Calls(a + b) == Calls(a) + Calls(b)
    decreases |b|
  {
    if b == [] {
      assert a + b == a;
    } else {
      var b' := b[..|b| - 1];
      assert (a + b)[..|a + b| - 1] == a + b';
      assert (a + b)[|a + b| - 1] == b[|b| - 1];
      StoreNewAppend(t, a, b', today);
    }
  }

  lemma CallsAtMost(fs: seq<Filing>)
    ensures Calls(fs) <= |fs|
  {
  }

  /** What one loop pass may do: append at most one record, which is well
      formed, change the table and the request count exactly as that record
      says, and never clear `raised`. */
  predicate StepOk(p: Progress, q: Progress, skipKnown: bool, svc: Services, today: string) {
    && (q.collected == p.collected
        || (|q.collected| == |p.collected| + 1 && q.collected[..|p.collected|] == p.collected
            && WellFormed(q.collected[|p.collected|], skipKnown, svc)))
    && q.table == StoreNew(p.table, q.collected[|p.collected|..], today)
    && q.sentimentRequests == p.sentimentRequests + Calls(q.collected[|p.collected|..])
    && (p.raised ==> q.raised)
  }

  lemma Unchanged(p: Progress, q: Progress, skipKnown: bool, svc: Services, today: string)
    requires q.collected == p.collected && q.table == p.table && q.sentimentRequests == p.sentimentRequests
    requires p.raised ==> q.raised
    ensures StepOk(p, q, skipKnown, svc, today)
  {
    assert q.collected[|p.collected|..] == [];
  }

  lemma AppendOne(p: Progress, q: Progress, f: Filing, skipKnown: bool, svc: Services, today: string)
    requires q.collected == p.collected + [f] && WellFormed(f, skipKnown, svc)
    requires q.table == (if Stores(f) then Insert(p.table, f.cik, f.filingDate, f.accession, f.sentiment.value, today)
                         else p.table)
    requires q.sentimentRequests == p.sentimentRequests + (if f.status == New && Truthy(f.content) then 1 else 0)
    requires p.raised ==> q.raised
    ensures StepOk(p, q, skipKnown, svc, today)
  {
    var added := q.collected[|p.collected|..];
    assert added == [f];
    assert added[..0] == [];
    assert q.collected[..|p.collected|] == p.collected;
  }

  lemma AnalyseFacts(company: Company, header: Description, filingDate: string, content: Option<string>,
                     skipKnown: bool, svc: Services, today: string, p: Progress)
    requires CheckPennyStock(company.cik, svc.quote) == NotPenny
    ensures StepOk(p, Analyse(company, header, filingDate, content, svc, today, p), skipKnown, svc, today)
  {
    var q := Analyse(company, header, filingDate, content, svc, today, p);
    var f := q.collected[|q.collected| - 1];
    assert q.collected == p.collected + [f];
    AppendOne(p, q, f, skipKnown, svc, today);
  }

  lemma EligibleFacts(company: Company, header: Description, filingDate: string, links: seq<string>,
                      skipKnown: bool, svc: Services, today: string, p: Progress)
    requires CheckPennyStock(company.cik, svc.quote) == NotPenny
    ensures StepOk(p, VisitEligible(company, header, filingDate, links, skipKnown, svc, today, p),
                   skipKnown, svc, today)
  {
    var existing := Lookup(p.table, company.cik, filingDate, header.accession);
    var q := VisitEligible(company, header, filingDate, links, skipKnown, svc, today, p);
    if Truthy(existing) && skipKnown {
      Unchanged(p, q, skipKnown, svc, today);
    } else if Truthy(existing) {
      AppendOne(p, q, Record(company, header, filingDate, None, existing, Existing), skipKnown, svc, today);
    } else if links == [] {
      Unchanged(p, q, skipKnown, svc, today);
    } else {
      AnalyseFacts(company, header, filingDate, Content(svc, links[0]), skipKnown, svc, today, p);
    }
  }

  lemma FilingFacts(company: Company, cols: seq<Cell>, skipKnown: bool, svc: Services,
                     today: string, p: Progress)
    ensures StepOk(p, VisitFiling(company, cols, skipKnown, svc, today, p), skipKnown, svc, today)
  {
    var q := VisitFiling(company, cols, skipKnown, svc, today, p);
    if |cols| < 4 || !ReportsItem101(cols[2].text) || CheckPennyStock(company.cik, svc.quote) != NotPenny {
      Unchanged(p, q, skipKnown, svc, today);
    } else {
      EligibleFacts(company, ParseDescription(cols[2].text), cols[3].text, cols[1].links,
                    skipKnown, svc, today, p);
    }
  }

  lemma VisitFacts(rows: seq<Row>, i: nat, skipKnown: bool, svc: Services, today: string, p: Progress)
    requires i < |rows|
    ensures StepOk(p, Visit(rows, i, skipKnown, svc, today, p), skipKnown, svc, today)
  {
    var q := Visit(rows, i, skipKnown, svc, today, p);
    if rows[i].companyLink.None? || i + 1 >= |rows| {
      Unchanged(p, q, skipKnown, svc, today);
    } else {
      FilingFacts(ParseCompany(rows[i].companyLink.value), rows[i + 1].cells, skipKnown, svc, today, p);
    }
  }

  function Max(a: int, b: int): int {
    if a < b then b else a
  }

  /** How the state `r` reached from `p` relates to it: the records of `p`
      stay, at most `limit` are collected, every new one is well formed, the
      table holds exactly the stores the new records caused, and the request
      count grows by exactly the requests behind them. */
  predicate Grows(p: Progress, r: Progress, limit: int, skipKnown: bool, svc: Services, today: string) {
    && |p.collected| <= |r.collected| <= Max(|p.collected|, limit)
    && r.collected[..|p.collected|] == p.collected
    && (forall k :: |p.collected| <= k < |r.collected| ==> WellFormed(r.collected[k], skipKnown, svc))
    && r.table == StoreNew(p.table, r.collected[|p.collected|..], today)
    && r.sentimentRequests == p.sentimentRequests + Calls(r.collected[|p.collected|..])
  }

  /** A step taken below the limit followed by growth is growth. */
  lemma StepThenGrows(p: Progress, q: Progress, r: Progress, limit: int, skipKnown: bool,
                      svc: Services, today: string)
    requires |p.collected| < limit
    requires StepOk(p, q, skipKnown, svc, today) && Grows(q, r, limit, skipKnown, svc, today)
    ensures Grows(p, r, limit, skipKnown, svc, today)
  {
    assert q.collected[..|p.collected|] == p.collected;
    var a, b := q.collected[|p.collected|..], r.collected[|q.collected|..];
    assert r.collected[|p.collected|..] == a + b;
    assert r.collected[..|p.collected|] == p.collected;
    StoreNewAppend(p.table, a, b, today);
    assert forall k :: |p.collected| <= k < |q.collected| ==> r.collected[k] == q.collected[k];
  }

  /** What the loop guarantees from any point on. */
  lemma {:induction false} ScanFacts(rows: seq<Row>, i: nat, limit: int, skipKnown: bool,
                                     svc: Services, today: string, p: Progress)
    ensures Grows(p, Scan(rows, i, limit, skipKnown, svc, today, p), limit, skipKnown, svc, today)
    decreases |rows| - i
  {
    if p.raised || i >= |rows| || |p.collected| >= limit {
      assert p.collected[|p.collected|..] == [];
      assert p.collected[..|p.collected|] == p.collected;
    } else {
      var q := Visit(rows, i, skipKnown, svc, today, p);
      VisitFacts(rows, i, skipKnown, svc, today, p);
      ScanFacts(rows, i + 1, limit, skipKnown, svc, today, q);
      StepThenGrows(p, q, Scan(rows, i + 1, limit, skipKnown, svc, today, q), limit, skipKnown, svc, today);
    }
  }

  /** The call returns at most `limit` records (none when `limit` is not
      positive) and makes at most `limit` sentiment requests; no penny stock
      is returned; with `skipKnown` no known filing is returned; and the table
      ends as the cleaned table plus, in order, exactly the stores of the new
      records with non-empty content and sentiment. */
  lemma SelectFacts(rows: seq<Row>, limit: int, skipKnown: bool, svc: Services, today: string,
                    cutoff: string, t: Table)
    ensures var r := Select(rows, limit, skipKnown, svc, today, cutoff, t);
      && |r.collected| <= Max(0, limit)
      && r.sentimentRequests == Calls(r.collected) <= Max(0, limit)
      && (forall k :: 0 <= k < |r.collected| ==> WellFormed(r.collected[k], skipKnown, svc))
      && (forall k :: 0 <= k < |r.collected| ==>
            svc.quote(ZFill(r.collected[k].cik, 10)).Close? && svc.quote(ZFill(r.collected[k].cik, 10)).price >= 5.0)
      && (skipKnown ==> forall k :: 0 <= k < |r.collected| ==> r.collected[k].status == New)
      && r.table == StoreNew(Clean(t, cutoff), r.collected, today)
  {
    var p := Progress([], Clean(t, cutoff), 0, false);
    ScanFacts(rows, 0, limit, skipKnown, svc, today, p);
    var r := Select(rows, limit, skipKnown, svc, today, cutoff, t);
    assert r.collected[0..] == r.collected;
    CallsAtMost(r.collected);
    forall k | 0 <= k < |r.collected|
      ensures svc.quote(ZFill(r.collected[k].cik, 10)).Close? && svc.quote(ZFill(r.collected[k].cik, 10)).price >= 5.0
    {
      NotPennyIff(r.collected[k].cik, svc.quote);
    }
  }

  /** A company row followed by an Item 1.01 filing row of a stock that
      passes the penny check reaches the eligible-filing stage with the
      parsed header fields. */
  lemma VisitReachesEligible(rows: seq<Row>, i: nat, skipKnown: bool, svc: Services, today: string,
                             p: Progress)
    requires i + 1 < |rows| && rows[i].companyLink.Some?
    requires |rows[i + 1].cells| >= 4 && ReportsItem101(rows[i + 1].cells[2].text)
    requires CheckPennyStock(ParseCompany(rows[i].companyLink.value).cik, svc.quote) == NotPenny
    ensures var cols := rows[i + 1].cells;
      Visit(rows, i, skipKnown, svc, today, p)
        == VisitEligible(ParseCompany(rows[i].companyLink.value), ParseDescription(cols[2].text),
                         cols[3].text, cols[1].links, skipKnown, svc, today, p)
  {
    var company, cols := ParseCompany(rows[i].companyLink.value), rows[i + 1].cells;
    assert Visit(rows, i, skipKnown, svc, today, p) == VisitFiling(company, cols, skipKnown, svc, today, p);
    FilingReachesEligible(company, cols, skipKnown, svc, today, p);
  }

  lemma FilingReachesEligible(company: Company, cols: seq<Cell>, skipKnown: bool, svc: Services,
                              today: string, p: Progress)
    requires |cols| >= 4 && ReportsItem101(cols[2].text)
    requires CheckPennyStock(company.cik, svc.quote) == NotPenny
    ensures VisitFiling(company, cols, skipKnown, svc, today, p)
      == VisitEligible(company, ParseDescription(cols[2].text), cols[3].text, cols[1].links,
                       skipKnown, svc, today, p)
  {
  }

  /** A known filing with a non-empty stored sentiment is skipped when
      `skipKnown` holds and otherwise returned as 'Existing' with that
      sentiment, no content, no request and no store. */
  lemma VisitKnownFiling(company: Company, header: Description, filingDate: string, links: seq<string>,
                         skipKnown: bool, svc: Services, today: string, p: Progress)
    requires Truthy(Lookup(p.table, company.cik, filingDate, header.accession))
    ensures var q := VisitEligible(company, header, filingDate, links, skipKnown, svc, today, p);
      && q.table == p.table && q.sentimentRequests == p.sentimentRequests && q.raised == p.raised
      && (skipKnown ==> q.collected == p.collected)
      && (!skipKnown ==> q.collected == p.collected + [Filing(
            company.name, company.cik, header.items, filingDate, header.accession, None,
            Lookup(p.table, company.cik, filingDate, header.accession), Existing)])
  {
  }

  /** A filing with no usable stored sentiment is fetched from its first
      link: the request is made exactly when the section is non-empty, the
      analysis is stored exactly when the answer is non-empty too, and the
      record is returned as 'New'; without a link the pass raises. */
  lemma VisitNewFiling(company: Company, header: Description, filingDate: string, links: seq<string>,
                       skipKnown: bool, svc: Services, today: string, p: Progress)
    requires !Truthy(Lookup(p.table, company.cik, filingDate, header.accession))
    ensures var q := VisitEligible(company, header, filingDate, links, skipKnown, svc, today, p);
      && (links == [] ==> q == p.(raised := true))
      && (links != [] ==>
            var content := Content(svc, links[0]);
            var sentiment := if Truthy(content) then svc.analyze(content.value) else None;
            && q.collected == p.collected + [Filing(company.name, company.cik, header.items, filingDate,
                                                    header.accession, content, sentiment, New)]
            && q.sentimentRequests == p.sentimentRequests + (if Truthy(content) then 1 else 0)
            && q.table == (if Truthy(content) && Truthy(sentiment)
                           then Insert(p.table, company.cik, filingDate, header.accession, sentiment.value, today)
                           else p.table))
  {
  }

  /** A penny stock never changes the state: it is neither returned, stored
      nor sent for sentiment. */
  lemma VisitPennyStock(rows: seq<Row>, i: nat, skipKnown: bool, svc: Services, today: string, p: Progress)
    requires i + 1 < |rows| && rows[i].companyLink.Some?
    requires CheckPennyStock(ParseCompany(rows[i].companyLink.value).cik, svc.quote) == IsPenny
    ensures Visit(rows, i, skipKnown, svc, today, p) == p
  {
  }
}
