/** Account executions merged from three sources: requested fills, commission events, and the session's cached fills. */
module Executions {
  import opened Wrappers

  datatype Report = Report(
    commission: Option<real>,
    realizedPnl: Option<real>,
    currency: Option<string>,
    yield_: Option<real>,
    redemption: Option<int>)
  {
    predicate SaysAnything() {
      commission.Some? || realizedPnl.Some? || currency.Some? || yield_.Some? || redemption.Some?
    }
  }

  const NO_REPORT := Report(None, None, None, None, None)

  /** A fill without an execution has neither id nor account. */
  datatype Fill = Fill(
    execId: Option<string>,
    account: Option<string>,
    contractCurrency: string,
    report: Option<Report>)
  {
    /** The id, or "" for a fill that has none. */
    function Id(): string {
      if execId.Some? then execId.value else ""
    }

    function Account(): string {
      if account.Some? then account.value else ""
    }
  }

  datatype Row = Row(
    execId: Option<string>,
    account: Option<string>,
    commission: Option<real>,
    realizedPnl: Option<real>,
    currency: Option<string>,
    yield_: Option<real>,
    redemption: Option<int>)
  {
    function Id(): string {
      if execId.Some? then execId.value else ""
    }
  }

  /** Latest commission report per execution id, as collected while the request was running. */
  type Events = map<string, Report>

  function OrElse<T>(a: Option<T>, b: Option<T>): Option<T> {
    if a.Some? then a else b
  }

  /** Python's `or` on optional text: an empty text counts as none. */
  function OrText(a: Option<string>, b: Option<string>): Option<string> {
    if a.Some? && a.value != "" then a else b
  }

  function NonEmpty(a: Option<string>): Option<string> {
    OrText(a, None)
  }

  /** A fill's own report, completed from the events when it has no commission. */
  function Completed(fill: Fill, events: Events): Report {
    var own := if fill.report.Some? then fill.report.value else NO_REPORT;
    if own.commission.None? && fill.Id() != "" && fill.Id() in events then
      var late := events[fill.Id()];
      Report(late.commission, OrElse(own.realizedPnl, late.realizedPnl), OrText(own.currency, late.currency),
        OrElse(own.yield_, late.yield_), OrElse(own.redemption, late.redemption))
    else own
  }

  /** A requested fill takes yield fields from its own report only, a cached one from the events too. */
  function RequestedRow(fill: Fill, events: Events): Row {
    var own := if fill.report.Some? then fill.report.value else NO_REPORT;
    var r := Completed(fill, events);
    Row(fill.execId, fill.account, r.commission, r.realizedPnl,
      NonEmpty(OrText(r.currency, Some(fill.contractCurrency))), own.yield_, own.redemption)
  }

  function CachedRow(fill: Fill, events: Events): Row {
    var r := Completed(fill, events);
    Row(fill.execId, Some(fill.Account()), r.commission, r.realizedPnl,
      NonEmpty(OrText(r.currency, Some(fill.contractCurrency))), r.yield_, r.redemption)
  }

  /** Among requested fills the first of each id counts; fills without an id all do. */
  ghost predicate Counts(requested: seq<Fill>, k: nat)
    requires k < |requested|
  {
    requested[k].Id() == "" || forall j :: 0 <= j < k ==> requested[j].Id() != requested[k].Id()
  }

  predicate Matches(fill: Fill, account: string) {
    fill.Id() != "" && (account == "" || fill.Account() == account)
  }

  ghost predicate Has(fills: seq<Fill>, id: string) {
    exists j :: 0 <= j < |fills| && fills[j].Id() == id
  }

  /** A cached fill counts when its id is new, its account matches, and no earlier such fill has its id. */
  ghost predicate CountsCached(requested: seq<Fill>, cached: seq<Fill>, account: string, k: nat)
    requires k < |cached|
  {
    && Matches(cached[k], account) && !Has(requested, cached[k].Id())
    && forall j :: 0 <= j < k ==> !(cached[j].Id() == cached[k].Id() && Matches(cached[j], account))
  }

  ghost function RequestedRows(requested: seq<Fill>, events: Events, n: nat): seq<Row>
    requires n <= |requested|
  {
    if n == 0 then []
    else
      var earlier := RequestedRows(requested, events, n - 1);
      if Counts(requested, n - 1) then earlier + [RequestedRow(requested[n - 1], events)] else earlier
  }

  ghost function CachedRows(
      requested: seq<Fill>, cached: seq<Fill>, account: string, events: Events, n: nat): seq<Row>
    requires n <= |cached|
  {
    if n == 0 then []
    else
      var earlier := CachedRows(requested, cached, account, events, n - 1);
      if CountsCached(requested, cached, account, n - 1) then earlier + [CachedRow(cached[n - 1], events)] else earlier
  }

  /** The last cached fill with this id. */
  function LastFill(cached: seq<Fill>, id: string): (last: Option<Fill>)
    ensures last.Some? ==> last.value in cached && last.value.Id() == id
    ensures last.None? ==> forall f :: f in cached ==> f.Id() != id
  {
    if cached == [] then None
    else if cached[|cached| - 1].Id() == id then Some(cached[|cached| - 1])
    else LastFill(cached[..|cached| - 1], id)
  }

  /** No cached fill with that id comes after it. */
  lemma {:induction false} NoLaterFill(cached: seq<Fill>, id: string) returns (k: int)
    ensures LastFill(cached, id).Some? ==>
              && 0 <= k < |cached| && cached[k] == LastFill(cached, id).value
              && forall j :: k < j < |cached| ==> cached[j].Id() != id
    decreases |cached|
  {
    var n := |cached| - 1;
    k := n;
    if cached != [] && cached[n].Id() != id {
      k := NoLaterFill(cached[..n], id);
    }
  }

  function Overwritten(row: Row, r: Report): Row {
    row.(commission := r.commission, realizedPnl := r.realizedPnl,
         currency := NonEmpty(OrText(r.currency, row.currency)), yield_ := r.yield_, redemption := r.redemption)
  }

  /** A row that still lacks a commission takes everything its last cached fill reports, if that says anything. */
  function Refreshed(row: Row, cached: seq<Fill>): Row {
    if row.Id() == "" || row.commission.Some? then row
    else
      var last := LastFill(cached, row.Id());
      if last.Some? && last.value.report.Some? && last.value.report.value.SaysAnything() then
        Overwritten(row, last.value.report.value)
      else row
  }

  /** The rows before the second pass over the cached fills. */
  ghost function Merged(requested: seq<Fill>, cached: seq<Fill>, account: string, events: Events): seq<Row> {
    RequestedRows(requested, events, |requested|) + CachedRows(requested, cached, account, events, |cached|)
  }

  method GetExecutions(requested: seq<Fill>, cached: seq<Fill>, account: string, events: Events)
    returns (rows: seq<Row>)
    ensures var merged := Merged(requested, cached, account, events);
      |rows| == |merged| && forall k :: 0 <= k < |rows| ==> rows[k] == Refreshed(merged[k], cached)
  {
    rows := [];
    var seen: set<string> := {};
    for k := 0 to |requested|
      invariant rows == RequestedRows(requested, events, k)
      invariant forall id :: id in seen <==> id != "" && Has(requested[..k], id)
    {
      assert requested[..k + 1] == requested[..k] + [requested[k]];
      HasExtended(requested[..k], requested[k]);
      assert (requested[k].Id() != "" && Has(requested[..k], requested[k].Id())) <==> !Counts(requested, k);
      var id := requested[k].Id();
      if id != "" && id in seen {
        continue;
      }
      rows := rows + [RequestedRow(requested[k], events)];
      if id != "" {
        seen := seen + {id};
      }
    }
    assert requested[..|requested|] == requested;
    ghost var first := rows;
    for k := 0 to |cached|
      invariant rows == first + CachedRows(requested, cached, account, events, k)
      invariant forall id :: id in seen <==>
        && id != ""
        && (Has(requested, id) || exists j :: 0 <= j < k && cached[j].Id() == id && Matches(cached[j], account))
    {
      var id := cached[k].Id();
      if id == "" || id in seen {
        continue;
      }
      if account != "" && cached[k].Account() != account {
        continue;
      }
      rows := rows + [CachedRow(cached[k], events)];
      seen := seen + {id};
    }
    rows := SecondPass(rows, cached);
  }

  lemma {:induction false} HasExtended(fills: seq<Fill>, last: Fill)
    ensures forall id :: Has(fills + [last], id) <==> Has(fills, id) || last.Id() == id
  {
    var more := fills + [last];
    assert more[|fills|] == last;
    assert forall j :: 0 <= j < |fills| ==> more[j] == fills[j];
  }

  method IndexFills(cached: seq<Fill>) returns (fillsById: map<string, Fill>)
    ensures forall id :: id in fillsById <==> id != "" && LastFill(cached, id).Some?
    ensures forall id :: id in fillsById ==> Some(fillsById[id]) == LastFill(cached, id)
  {
    fillsById := map[];
    for k := 0 to |cached|
      invariant forall id :: id in fillsById <==> id != "" && LastFill(cached[..k], id).Some?
      invariant forall id :: id in fillsById ==> Some(fillsById[id]) == LastFill(cached[..k], id)
    {
      assert cached[..k + 1][..k] == cached[..k];
      if cached[k].Id() != "" {
        fillsById := fillsById[cached[k].Id() := cached[k]];
      }
    }
    assert cached[..|cached|] == cached;
  }

  /** Rewrites rows in place from an index of the cached fills. */
  method SecondPass(merged: seq<Row>, cached: seq<Fill>) returns (rows: seq<Row>)
    ensures |rows| == |merged| && forall k :: 0 <= k < |rows| ==> rows[k] == Refreshed(merged[k], cached)
  {
    var fillsById := IndexFills(cached);
    rows := merged;
    for k := 0 to |merged|
      invariant |rows| == |merged|
      invariant forall j :: 0 <= j < k ==> rows[j] == Refreshed(merged[j], cached)
      invariant forall j :: k <= j < |merged| ==> rows[j] == merged[j]
    {
      var row := rows[k];
      var id := row.Id();
      if id == "" || row.commission.Some? {
        continue;
      }
      if id !in fillsById || fillsById[id].report.None? {
        continue;
      }
      var r := fillsById[id].report.value;
      if r.SaysAnything() {
        rows := rows[k := Overwritten(row, r)];
      }
    }
  }

  // ---------- What the merge means ----------

  /** Row `row` was made from a counting fill of its own id. */
  ghost predicate MadeFrom(
      requested: seq<Fill>, cached: seq<Fill>, account: string, events: Events, row: Row)
  {
    || (exists j :: 0 <= j < |requested| && Counts(requested, j) && row == RequestedRow(requested[j], events))
    || (exists j :: 0 <= j < |cached| && CountsCached(requested, cached, account, j)
                    && row == CachedRow(cached[j], events))
  }

  ghost predicate RowHasId(rows: seq<Row>, id: string) {
    exists i :: 0 <= i < |rows| && rows[i].Id() == id
  }

  lemma {:induction false} RowHasIdOfBoth(first: seq<Row>, second: seq<Row>, id: string)
    ensures RowHasId(first + second, id) <==> RowHasId(first, id) || RowHasId(second, id)
  {
    var both := first + second;
    if i :| 0 <= i < |first| && first[i].Id() == id {
      assert both[i].Id() == id;
    }
    if i :| 0 <= i < |second| && second[i].Id() == id {
      assert both[|first| + i].Id() == id;
    }
  }

  /** Non-empty ids never repeat. */
  ghost predicate Distinct(rows: seq<Row>) {
    forall i, j :: 0 <= i < j < |rows| && rows[i].Id() != "" ==> rows[i].Id() != rows[j].Id()
  }

  lemma {:induction false} DistinctAppended(rows: seq<Row>, row: Row)
    requires Distinct(rows) && (row.Id() != "" ==> !RowHasId(rows, row.Id()))
    ensures Distinct(rows + [row])
  {
  }

  lemma {:induction false} RequestedIds(requested: seq<Fill>, events: Events, n: nat, id: string)
    requires n <= |requested| && id != ""
    ensures RowHasId(RequestedRows(requested, events, n), id) <==> Has(requested[..n], id)
    decreases n
  {
    if n > 0 {
      RequestedIds(requested, events, n - 1, id);
      assert requested[..n] == requested[..n - 1] + [requested[n - 1]];
      HasExtended(requested[..n - 1], requested[n - 1]);
      if Counts(requested, n - 1) {
        RowHasIdOfBoth(RequestedRows(requested, events, n - 1), [RequestedRow(requested[n - 1], events)], id);
        assert RowHasId([RequestedRow(requested[n - 1], events)], id) <==>
               [RequestedRow(requested[n - 1], events)][0].Id() == id;
      } else {
        var j :| 0 <= j < n - 1 && requested[j].Id() == requested[n - 1].Id();
        assert requested[..n - 1][j] == requested[j];
        assert Has(requested[..n - 1], requested[n - 1].Id());
      }
    }
  }

  lemma {:induction false} RequestedDistinct(requested: seq<Fill>, events: Events, n: nat)
    requires n <= |requested|
    ensures Distinct(RequestedRows(requested, events, n))
    decreases n
  {
    if n > 0 {
      RequestedDistinct(requested, events, n - 1);
      var id := requested[n - 1].Id();
      if Counts(requested, n - 1) {
        if id != "" {
          RequestedIds(requested, events, n - 1, id);
        }
        DistinctAppended(RequestedRows(requested, events, n - 1), RequestedRow(requested[n - 1], events));
      }
    }
  }

  ghost predicate HasMatch(cached: seq<Fill>, account: string, n: nat, id: string)
    requires n <= |cached|
  {
    exists j :: 0 <= j < n && cached[j].Id() == id && Matches(cached[j], account)
  }

  lemma {:induction false} CachedIds(
      requested: seq<Fill>, cached: seq<Fill>, account: string, events: Events, n: nat, id: string)
    requires n <= |cached|
    ensures RowHasId(CachedRows(requested, cached, account, events, n), id)
       <==> HasMatch(cached, account, n, id) && !Has(requested, id)
    decreases n
  {
    if n > 0 {
      CachedIds(requested, cached, account, events, n - 1, id);
      assert HasMatch(cached, account, n, id) <==>
        HasMatch(cached, account, n - 1, id) || (cached[n - 1].Id() == id && Matches(cached[n - 1], account));
      if CountsCached(requested, cached, account, n - 1) {
        RowHasIdOfBoth(CachedRows(requested, cached, account, events, n - 1), [CachedRow(cached[n - 1], events)], id);
        assert RowHasId([CachedRow(cached[n - 1], events)], id) <==> [CachedRow(cached[n - 1], events)][0].Id() == id;
      } else if cached[n - 1].Id() == id && Matches(cached[n - 1], account) && !Has(requested, id) {
        assert HasMatch(cached, account, n - 1, id);
      }
    }
  }

  lemma {:induction false} CachedDistinct(
      requested: seq<Fill>, cached: seq<Fill>, account: string, events: Events, n: nat)
    requires n <= |cached|
    ensures Distinct(CachedRows(requested, cached, account, events, n))
    decreases n
  {
    if n > 0 {
      CachedDistinct(requested, cached, account, events, n - 1);
      if CountsCached(requested, cached, account, n - 1) {
        CachedIds(requested, cached, account, events, n - 1, cached[n - 1].Id());
        DistinctAppended(CachedRows(requested, cached, account, events, n - 1), CachedRow(cached[n - 1], events));
      }
    }
  }

  /** Non-empty ids are pairwise distinct, and they are the ids of the requested fills and of the cached fills
      whose account matches. (Requested fills without an id each keep a row of their own.) */
  lemma {:induction false} IdsDistinctAndComplete(
      requested: seq<Fill>, cached: seq<Fill>, account: string, events: Events)
    ensures Distinct(Merged(requested, cached, account, events))
    ensures forall id :: id != "" ==>
              (RowHasId(Merged(requested, cached, account, events), id)
               <==> Has(requested, id) || HasMatch(cached, account, |cached|, id))
  {
    var first := RequestedRows(requested, events, |requested|);
    var second := CachedRows(requested, cached, account, events, |cached|);
    assert requested[..|requested|] == requested;
    forall id | id != ""
      ensures RowHasId(first, id) <==> Has(requested, id)
      ensures RowHasId(second, id) <==> HasMatch(cached, account, |cached|, id) && !Has(requested, id)
      ensures RowHasId(first + second, id) <==> RowHasId(first, id) || RowHasId(second, id)
    {
      RequestedIds(requested, events, |requested|, id);
      CachedIds(requested, cached, account, events, |cached|, id);
      RowHasIdOfBoth(first, second, id);
    }
    RequestedDistinct(requested, events, |requested|);
    CachedDistinct(requested, cached, account, events, |cached|);
    forall i, j | 0 <= i < j < |first + second| && (first + second)[i].Id() != ""
      ensures (first + second)[i].Id() != (first + second)[j].Id()
    {
      if i < |first| <= j {
        assert RowHasId(first, first[i].Id()) && RowHasId(second, second[j - |first|].Id());
      }
    }
  }

  lemma {:induction false} RequestedMade(requested: seq<Fill>, events: Events, n: nat, i: nat)
    requires n <= |requested| && i < |RequestedRows(requested, events, n)|
    ensures exists j :: 0 <= j < n && Counts(requested, j)
                        && RequestedRows(requested, events, n)[i] == RequestedRow(requested[j], events)
    decreases n
  {
    if i < |RequestedRows(requested, events, n - 1)| {
      RequestedMade(requested, events, n - 1, i);
    }
  }

  lemma {:induction false} CachedMade(
      requested: seq<Fill>, cached: seq<Fill>, account: string, events: Events, n: nat, i: nat)
    requires n <= |cached| && i < |CachedRows(requested, cached, account, events, n)|
    ensures exists j :: 0 <= j < n && CountsCached(requested, cached, account, j)
                        && CachedRows(requested, cached, account, events, n)[i] == CachedRow(cached[j], events)
    decreases n
  {
    if i < |CachedRows(requested, cached, account, events, n - 1)| {
      CachedMade(requested, cached, account, events, n - 1, i);
    }
  }

  /** Every row of the merge stems from a fill that counts. */
  lemma {:induction false} RowsAreMade(requested: seq<Fill>, cached: seq<Fill>, account: string, events: Events, i: nat)
    requires i < |Merged(requested, cached, account, events)|
    ensures MadeFrom(requested, cached, account, events, Merged(requested, cached, account, events)[i])
  {
    var n := |RequestedRows(requested, events, |requested|)|;
    if i < n {
      RequestedMade(requested, events, |requested|, i);
    } else {
      CachedMade(requested, cached, account, events, |cached|, i - n);
    }
  }

  function Commission(report: Option<Report>): Option<real> {
    if report.Some? then report.value.commission else None
  }

  function Lookup(events: Events, id: string): Option<Report> {
    if id != "" && id in events then Some(events[id]) else None
  }

  /** Own commission first, then the events', then the last cached fill's of the same id. */
  function CommissionOf(fill: Fill, cached: seq<Fill>, events: Events): Option<real> {
    var last := if fill.Id() == "" then None else LastFill(cached, fill.Id());
    OrElse(Commission(fill.report),
      OrElse(Commission(Lookup(events, fill.Id())), if last.Some? then Commission(last.value.report) else None))
  }

  // ---------- Where every field comes from ----------

  /** `r` is the first of `xs` that is known. */
  ghost predicate FirstKnown<T>(xs: seq<Option<T>>, r: Option<T>) {
    if r.None? then forall k :: 0 <= k < |xs| ==> xs[k].None?
    else exists k :: 0 <= k < |xs| && xs[k] == r && forall j :: 0 <= j < k ==> xs[j].None?
  }

  predicate Blank(x: Option<string>) {
    x == None || x == Some("")
  }

  /** `r` is the first of `xs` that is not blank. */
  ghost predicate FirstText(xs: seq<Option<string>>, r: Option<string>) {
    if r.None? then forall k :: 0 <= k < |xs| ==> Blank(xs[k])
    else exists k :: 0 <= k < |xs| && xs[k] == r && !Blank(r) && forall j :: 0 <= j < k ==> Blank(xs[j])
  }

  function Own(fill: Fill): Report {
    if fill.report.Some? then fill.report.value else NO_REPORT
  }

  /** What the events add, which are asked only when the fill itself has no commission. */
  function Late(fill: Fill, events: Events): Report {
    if Own(fill).commission.None? && fill.Id() != "" && fill.Id() in events then events[fill.Id()] else NO_REPORT
  }

  /** Before the second pass: each field from the fill's own report, then from the events, then from its contract; the
      yield fields of a requested fill from its own report only. */
  ghost predicate FieldsOf(row: Row, fill: Fill, wasRequested: bool, events: Events) {
    var own, late := Own(fill), Late(fill, events);
    && row.execId == fill.execId
    && row.account == (if wasRequested then fill.account else Some(fill.Account()))
    && FirstKnown([own.commission, late.commission], row.commission)
    && FirstKnown([own.realizedPnl, late.realizedPnl], row.realizedPnl)
    && FirstText([own.currency, late.currency, Some(fill.contractCurrency)], row.currency)
    && if wasRequested then row.yield_ == own.yield_ && row.redemption == own.redemption
       else
         && FirstKnown([own.yield_, late.yield_], row.yield_)
         && FirstKnown([own.redemption, late.redemption], row.redemption)
  }

  lemma {:induction false} FirstOfTwo<T>(a: Option<T>, b: Option<T>)
    ensures FirstKnown([a, b], OrElse(a, b))
  {
    var xs := [a, b];
    assert xs[0] == a && xs[1] == b;
  }

  lemma {:induction false} FirstOfTexts(a: Option<string>, b: Option<string>, c: Option<string>)
    ensures FirstText([a, b, c], NonEmpty(OrText(OrText(a, b), c)))
  {
    var xs := [a, b, c];
    assert xs[0] == a && xs[1] == b && xs[2] == c;
  }

  lemma {:induction false} MadeRowsFields(fill: Fill, events: Events)
    ensures FieldsOf(RequestedRow(fill, events), fill, true, events)
    ensures fill.Id() != "" ==> FieldsOf(CachedRow(fill, events), fill, false, events)
  {
    var own, late := Own(fill), Late(fill, events);
    FirstOfTwo(own.commission, late.commission);
    FirstOfTwo(own.realizedPnl, late.realizedPnl);
    FirstOfTwo(own.yield_, late.yield_);
    FirstOfTwo(own.redemption, late.redemption);
    FirstOfTexts(own.currency, late.currency, Some(fill.contractCurrency));
  }

  /** The second pass: a row still without commission takes all of the report of the last cached fill of its id, if that
      reports anything, and keeps its currency only if the report has none. */
  ghost predicate SecondPassOf(row: Row, r: Row, cached: seq<Fill>) {
    var last := if row.Id() == "" || row.commission.Some? then None else LastFill(cached, row.Id());
    if last.Some? && last.value.report.Some?
       && (var x := last.value.report.value;
           x.commission.Some? || x.realizedPnl.Some? || x.currency.Some? || x.yield_.Some? || x.redemption.Some?)
    then
      var x := last.value.report.value;
      && r.execId == row.execId && r.account == row.account
      && r.commission == x.commission && r.realizedPnl == x.realizedPnl
      && r.yield_ == x.yield_ && r.redemption == x.redemption
      && FirstText([x.currency, row.currency], r.currency)
    else r == row
  }

  lemma {:induction false} RefreshedMeaning(row: Row, cached: seq<Fill>)
    ensures SecondPassOf(row, Refreshed(row, cached), cached)
  {
    var last := LastFill(cached, row.Id());
    if last.Some? && last.value.report.Some? {
      var xs := [last.value.report.value.currency, row.currency];
      assert xs[0] == last.value.report.value.currency && xs[1] == row.currency;
    }
  }

  /** Requested fill `j` counts: it has no id, or it is the first with its id. */
  ghost predicate FirstRequested(requested: seq<Fill>, j: nat)
    requires j < |requested|
  {
    requested[j].execId in {None, Some("")} || forall k :: 0 <= k < j ==> requested[k].execId != requested[j].execId
  }

  /** Cached fill `j` counts: it is the first with its id and the account asked for, and no requested fill has its
      id. */
  ghost predicate FirstCached(requested: seq<Fill>, cached: seq<Fill>, account: string, j: nat)
    requires j < |cached|
  {
    && cached[j].execId !in {None, Some("")} && (account == "" || cached[j].account == Some(account))
    && (forall k :: 0 <= k < |requested| ==> requested[k].execId != cached[j].execId)
    && (forall k :: 0 <= k < j ==>
          !(cached[k].execId == cached[j].execId && (account == "" || cached[k].account == Some(account))))
  }

  lemma {:induction false} CountsIff(requested: seq<Fill>, j: nat)
    requires j < |requested|
    ensures Counts(requested, j) <==> FirstRequested(requested, j)
  {
  }

  lemma {:induction false} CountsCachedIff(requested: seq<Fill>, cached: seq<Fill>, account: string, j: nat)
    requires j < |cached|
    ensures CountsCached(requested, cached, account, j) <==> FirstCached(requested, cached, account, j)
  {
    if cached[j].execId.Some? && cached[j].execId.value != "" {
      var id := cached[j].execId;
      assert Has(requested, id.value) <==> exists k :: 0 <= k < |requested| && requested[k].execId == id;
    }
  }

  /** Every returned row, field by field: it was made from a fill that counts, and then went through the second pass. */
  lemma {:induction false} ReturnedFields(
      requested: seq<Fill>, cached: seq<Fill>, account: string, events: Events, i: nat)
    returns (fill: Fill, wasRequested: bool)
    requires i < |Merged(requested, cached, account, events)|
    ensures var row := Merged(requested, cached, account, events)[i];
      && FieldsOf(row, fill, wasRequested, events)
      && SecondPassOf(row, Refreshed(row, cached), cached)
    ensures if wasRequested then
              exists j :: 0 <= j < |requested| && requested[j] == fill && FirstRequested(requested, j)
            else
              exists j :: 0 <= j < |cached| && cached[j] == fill && FirstCached(requested, cached, account, j)
  {
    var row := Merged(requested, cached, account, events)[i];
    RefreshedMeaning(row, cached);
    RowsAreMade(requested, cached, account, events, i);
    if j :| 0 <= j < |requested| && Counts(requested, j) && row == RequestedRow(requested[j], events) {
      fill, wasRequested := requested[j], true;
      CountsIff(requested, j);
    } else {
      var j :| 0 <= j < |cached| && CountsCached(requested, cached, account, j) && row == CachedRow(cached[j], events);
      fill, wasRequested := cached[j], false;
      CountsCachedIff(requested, cached, account, j);
    }
    MadeRowsFields(fill, events);
  }

  /** And every fill that counts has its row, in the order of the fills, the requested ones first. */
  lemma {:induction false} EveryFillHasItsRow(
      requested: seq<Fill>, cached: seq<Fill>, account: string, events: Events, j: nat)
    returns (i: nat)
    requires j < |requested| + |cached|
    requires if j < |requested| then FirstRequested(requested, j)
             else FirstCached(requested, cached, account, j - |requested|)
    ensures var merged := Merged(requested, cached, account, events);
      && i == RowsBefore(requested, cached, account, events, j) < |merged|
      && (if j < |requested| then FieldsOf(merged[i], requested[j], true, events)
          else FieldsOf(merged[i], cached[j - |requested|], false, events))
  {
    if j < |requested| {
      CountsIff(requested, j);
      i := RequestedAppears(requested, events, |requested|, j);
      MadeRowsFields(requested[j], events);
    } else {
      var k := j - |requested|;
      CountsCachedIff(requested, cached, account, k);
      i := CachedAppears(requested, cached, account, events, |cached|, k);
      i := i + |RequestedRows(requested, events, |requested|)|;
      MadeRowsFields(cached[k], events);
    }
  }

  /** How many rows the first `j` fills make. */
  ghost function RowsBefore(
      requested: seq<Fill>, cached: seq<Fill>, account: string, events: Events, j: nat): nat
    requires j <= |requested| + |cached|
  {
    if j <= |requested| then |RequestedRows(requested, events, j)|
    else
      |RequestedRows(requested, events, |requested|)|
        + |CachedRows(requested, cached, account, events, j - |requested|)|
  }

  /** A fill makes one row exactly if it counts, so rows keep the order of their fills. */
  lemma {:induction false} OneRowPerFill(
      requested: seq<Fill>, cached: seq<Fill>, account: string, events: Events, j: nat)
    requires j < |requested| + |cached|
    ensures var counts := if j < |requested| then FirstRequested(requested, j)
                          else FirstCached(requested, cached, account, j - |requested|);
      RowsBefore(requested, cached, account, events, j + 1)
        == RowsBefore(requested, cached, account, events, j) + if counts then 1 else 0
    ensures |Merged(requested, cached, account, events)|
         == RowsBefore(requested, cached, account, events, |requested| + |cached|)
  {
    if j < |requested| {
      CountsIff(requested, j);
    } else {
      CountsCachedIff(requested, cached, account, j - |requested|);
    }
  }

  /** Every returned row belongs to a fill that counts, has its id, and takes its commission in that order. */
  lemma {:induction false} ReturnedRow(
      requested: seq<Fill>, cached: seq<Fill>, account: string, events: Events, i: nat)
    returns (fill: Fill)
    requires i < |Merged(requested, cached, account, events)|
    ensures var row := Refreshed(Merged(requested, cached, account, events)[i], cached);
      && row.Id() == fill.Id()
      && row.commission == CommissionOf(fill, cached, events)
      && (|| (exists j :: 0 <= j < |requested| && Counts(requested, j) && requested[j] == fill)
          || (exists j :: 0 <= j < |cached| && CountsCached(requested, cached, account, j) && cached[j] == fill))
  {
    RowsAreMade(requested, cached, account, events, i);
    var row := Merged(requested, cached, account, events)[i];
    if j :| 0 <= j < |requested| && Counts(requested, j) && row == RequestedRow(requested[j], events) {
      fill := requested[j];
    } else {
      var j :| 0 <= j < |cached| && CountsCached(requested, cached, account, j) && row == CachedRow(cached[j], events);
      fill := cached[j];
    }
  }

  /** The second pass leaves ids and accounts alone, and rows that had a commission altogether; but it drops a
      realized profit already known exactly when the row has no commission and its last cached fill reports
      something, only not a realized profit. */
  lemma {:induction false} SecondPassTouches(row: Row, cached: seq<Fill>)
    ensures var r := Refreshed(row, cached);
      && r.execId == row.execId && r.account == row.account
      && (row.commission.Some? || row.Id() == "" ==> r == row)
      && (row.realizedPnl.Some? && r.realizedPnl.None? <==>
            var last := LastFill(cached, row.Id());
            && row.Id() != "" && row.commission.None? && row.realizedPnl.Some?
            && last.Some? && last.value.report.Some? && last.value.report.value.SaysAnything()
            && last.value.report.value.realizedPnl.None?)
  {
  }

  lemma {:induction false} RequestedAppears(requested: seq<Fill>, events: Events, n: nat, j: nat) returns (i: nat)
    requires j < n <= |requested| && Counts(requested, j)
    ensures i == |RequestedRows(requested, events, j)| < |RequestedRows(requested, events, n)|
    ensures RequestedRows(requested, events, n)[i] == RequestedRow(requested[j], events)
    decreases n
  {
    if j == n - 1 {
      i := |RequestedRows(requested, events, j)|;
    } else {
      i := RequestedAppears(requested, events, n - 1, j);
    }
  }

  lemma {:induction false} CachedAppears(
      requested: seq<Fill>, cached: seq<Fill>, account: string, events: Events, n: nat, j: nat) returns (i: nat)
    requires j < n <= |cached| && CountsCached(requested, cached, account, j)
    ensures i == |CachedRows(requested, cached, account, events, j)|
    ensures i < |CachedRows(requested, cached, account, events, n)|
    ensures CachedRows(requested, cached, account, events, n)[i] == CachedRow(cached[j], events)
    decreases n
  {
    if j == n - 1 {
      i := |CachedRows(requested, cached, account, events, j)|;
    } else {
      i := CachedAppears(requested, cached, account, events, n - 1, j);
    }
  }

  predicate LosesProfit(row: Row, cached: seq<Fill>) {
    row.realizedPnl.Some? && Refreshed(row, cached).realizedPnl.None?
  }

  /** A fill's profit is known, its commission is not, and the last cached fill of its id reports something but no
      profit. */
  predicate ProfitAtRisk(fill: Fill, cached: seq<Fill>, events: Events) {
    var r, last := Completed(fill, events), LastFill(cached, fill.Id());
    && fill.Id() != "" && r.commission.None? && r.realizedPnl.Some?
    && last.Some? && last.value.report.Some? && last.value.report.value.SaysAnything()
    && last.value.report.value.realizedPnl.None?
  }

  lemma {:induction false} RowLosesProfitIff(fill: Fill, cached: seq<Fill>, events: Events)
    ensures LosesProfit(RequestedRow(fill, events), cached) <==> ProfitAtRisk(fill, cached, events)
    ensures LosesProfit(CachedRow(fill, events), cached) <==> ProfitAtRisk(fill, cached, events)
  {
    SecondPassTouches(RequestedRow(fill, events), cached);
    SecondPassTouches(CachedRow(fill, events), cached);
  }

  ghost predicate FirstAtRisk(requested: seq<Fill>, cached: seq<Fill>, events: Events, j: nat)
    requires j < |requested|
  {
    Counts(requested, j) && ProfitAtRisk(requested[j], cached, events)
  }

  ghost predicate SecondAtRisk(requested: seq<Fill>, cached: seq<Fill>, account: string, events: Events, j: nat)
    requires j < |cached|
  {
    CountsCached(requested, cached, account, j) && ProfitAtRisk(cached[j], cached, events)
  }

  /** Some fill that counts, requested or cached, is at risk. */
  ghost predicate SomeProfitAtRisk(requested: seq<Fill>, cached: seq<Fill>, account: string, events: Events) {
    || (exists j :: 0 <= j < |requested| && FirstAtRisk(requested, cached, events, j))
    || (exists j :: 0 <= j < |cached| && SecondAtRisk(requested, cached, account, events, j))
  }

  lemma {:induction false} LostMeansAtRisk(
      requested: seq<Fill>, cached: seq<Fill>, account: string, events: Events, i: nat)
    requires i < |Merged(requested, cached, account, events)|
    requires LosesProfit(Merged(requested, cached, account, events)[i], cached)
    ensures SomeProfitAtRisk(requested, cached, account, events)
  {
    RowsAreMade(requested, cached, account, events, i);
    var row := Merged(requested, cached, account, events)[i];
    if j :| 0 <= j < |requested| && Counts(requested, j) && row == RequestedRow(requested[j], events) {
      RowLosesProfitIff(requested[j], cached, events);
      assert FirstAtRisk(requested, cached, events, j);
    } else {
      var j :| 0 <= j < |cached| && CountsCached(requested, cached, account, j) && row == CachedRow(cached[j], events);
      RowLosesProfitIff(cached[j], cached, events);
      assert SecondAtRisk(requested, cached, account, events, j);
    }
  }

  lemma {:induction false} FirstRowsLose(requested: seq<Fill>, cached: seq<Fill>, events: Events, j: nat)
    returns (i: nat)
    requires j < |requested| && FirstAtRisk(requested, cached, events, j)
    ensures i < |RequestedRows(requested, events, |requested|)|
    ensures LosesProfit(RequestedRows(requested, events, |requested|)[i], cached)
  {
    RowLosesProfitIff(requested[j], cached, events);
    i := RequestedAppears(requested, events, |requested|, j);
  }

  lemma {:induction false} SecondRowsLose(
      requested: seq<Fill>, cached: seq<Fill>, account: string, events: Events, j: nat)
    returns (i: nat)
    requires j < |cached| && SecondAtRisk(requested, cached, account, events, j)
    ensures i < |CachedRows(requested, cached, account, events, |cached|)|
    ensures LosesProfit(CachedRows(requested, cached, account, events, |cached|)[i], cached)
  {
    RowLosesProfitIff(cached[j], cached, events);
    i := CachedAppears(requested, cached, account, events, |cached|, j);
  }

  lemma {:induction false} AtRiskMeansLost(requested: seq<Fill>, cached: seq<Fill>, account: string, events: Events)
    returns (i: nat)
    requires SomeProfitAtRisk(requested, cached, account, events)
    ensures i < |Merged(requested, cached, account, events)|
    ensures LosesProfit(Merged(requested, cached, account, events)[i], cached)
  {
    if j :| 0 <= j < |requested| && FirstAtRisk(requested, cached, events, j) {
      i := FirstRowsLose(requested, cached, events, j);
    } else {
      var j :| 0 <= j < |cached| && SecondAtRisk(requested, cached, account, events, j);
      var k := SecondRowsLose(requested, cached, account, events, j);
      i := |RequestedRows(requested, events, |requested|)| + k;
    }
  }

  /** Exactly when some returned row loses a realized profit: when some fill that counts is at risk. */
  lemma {:induction false} ProfitLostIff(requested: seq<Fill>, cached: seq<Fill>, account: string, events: Events)
    ensures var merged := Merged(requested, cached, account, events);
      (exists i :: 0 <= i < |merged| && LosesProfit(merged[i], cached))
      <==> SomeProfitAtRisk(requested, cached, account, events)
  {
    var merged := Merged(requested, cached, account, events);
    if i :| 0 <= i < |merged| && LosesProfit(merged[i], cached) {
      LostMeansAtRisk(requested, cached, account, events, i);
    }
    if SomeProfitAtRisk(requested, cached, account, events) {
      var i := AtRiskMeansLost(requested, cached, account, events);
    }
  }

  /** It happens: one execution, requested with its profit of 5 but no commission yet, and cached with a report that
      only names a currency. */
  lemma {:induction false} ProfitIsLost()
    ensures var requested := [Fill(Some("e"), Some("a"), "USD", Some(NO_REPORT.(realizedPnl := Some(5.0))))];
      var cached := [Fill(Some("e"), Some("a"), "USD", Some(NO_REPORT.(currency := Some("USD"))))];
      var merged := Merged(requested, cached, "a", map[]);
      && |merged| == 1 && merged[0].realizedPnl == Some(5.0) && Refreshed(merged[0], cached).realizedPnl == None
  {
    var requested := [Fill(Some("e"), Some("a"), "USD", Some(NO_REPORT.(realizedPnl := Some(5.0))))];
    var cached := [Fill(Some("e"), Some("a"), "USD", Some(NO_REPORT.(currency := Some("USD"))))];
    assert Counts(requested, 0);
    assert requested[0].Id() == cached[0].Id() && Has(requested, cached[0].Id());
    assert RequestedRows(requested, map[], 1) == [RequestedRow(requested[0], map[])];
    assert CachedRows(requested, cached, "a", map[], 1) == [];
  }
}
