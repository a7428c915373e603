/** The search flow (fetch_card_details.py): for every Collection record whose
    Status is "search", query the catalog with bounded retries, append every
    match to the "Search Results" sheet and queue cell updates for the record
    from the last match; finally write the queue in one batch. */
module FetchCardDetails {
  import opened Py
  import opened Catalog
  import opened Sheet

  // ---------------------------------------------------------------------
  // The retry loop of fetch_card_details
  // ---------------------------------------------------------------------

  /** How one HTTP request of the search endpoint ends: status 429, any other
      request failure (an HTTP error status, a connection error), or a decoded
      reply whose `data` key is missing (`None`) or holds a list of cards. */
  datatype Outcome = RateLimited | RequestFailed | Success(data: Option<seq<Card>>)

  /** The retries parameter's default. */
  const DefaultRetries := 3

  /** The outcomes that cost an attempt and lead to another one. */
  predicate Retryable(o: Outcome) {
    o.RateLimited? || o.RequestFailed?
  }

  /** The pause that follows a retryable outcome: 5 after a 429, 2 after any
      other failure. */
  function PauseAfter(o: Outcome): int {
    if o.RateLimited? then 5 else 2
  }

  /** `range(retries)` runs max(retries, 0) times. */
  function Budget(retries: int): nat {
    if retries > 0 then retries else 0
  }

  /** What a successful reply yields: its cards when `data` is present and
      non-empty, nothing otherwise. */
  function Found(data: Option<seq<Card>>): (r: Option<seq<Card>>)
    ensures r.Some? <==> data.Some? && data.value != []
    ensures r.Some? ==> r == data
  {
    if data.Some? && data.value != [] then data else None
  }

  /** The result of one call: the cards returned (or None), the number of
      requests made and the pauses taken, in order. */
  datatype Fetched = Fetched(cards: Option<seq<Card>>, requests: nat, pauses: seq<int>)

  /** The index of the first successful answer in [from, budget), or `budget`
      when every answer there is retryable. */
  function FirstSuccess(answer: nat -> Outcome, from: nat, budget: nat): (k: nat)
    requires from <= budget
    ensures from <= k <= budget
    ensures forall i :: from <= i < k ==> Retryable(answer(i))
    ensures k < budget ==> answer(k).Success?
    decreases budget - from
  {
    if from == budget || answer(from).Success? then from
    else FirstSuccess(answer, from + 1, budget)
  }

  /** The pauses taken after the first `n` answers, all of them retryable. */
  function Pauses(answer: nat -> Outcome, n: nat): (r: seq<int>)
    ensures |r| == n
  {
    seq(n, i requires 0 <= i < n => PauseAfter(answer(i)))
  }

  /** What fetch_card_details does when its i-th request receives
      `answer(i)`: requests go out until the first success or until the
      budget is spent. */
  function FetchSpec(answer: nat -> Outcome, retries: int): (f: Fetched)
    ensures f.requests <= Budget(retries)
    ensures f.cards.Some? ==> f.cards.value != []
    ensures forall i :: 0 <= i < |f.pauses| ==> Retryable(answer(i))
    ensures forall i :: 0 <= i < |f.pauses| ==>
              (f.pauses[i] == 5 <==> answer(i).RateLimited?) && (f.pauses[i] == 2 <==> answer(i).RequestFailed?)
  {
    var n := Budget(retries);
    var k := FirstSuccess(answer, 0, n);
    if k < n then Fetched(Found(answer(k).data), k + 1, Pauses(answer, k))
    else Fetched(None, n, Pauses(answer, n))
  }

  /** The loop of fetch_card_details: `answer(i)` is how its request on
      attempt i ends; pauses are recorded instead of slept. */
  method FetchCardDetailsLoop(answer: nat -> Outcome, retries: int)
    returns (cards: Option<seq<Card>>, requests: nat, pauses: seq<int>)
    ensures Fetched(cards, requests, pauses) == FetchSpec(answer, retries)
  {
    var budget := Budget(retries);
    requests, pauses := 0, [];
    for attempt := 0 to budget
      invariant requests == attempt
      invariant forall i :: 0 <= i < attempt ==> Retryable(answer(i))
      invariant pauses == Pauses(answer, attempt)
    {
      requests := requests + 1;
      match answer(attempt)
      case RateLimited =>
        pauses := pauses + [5];
      case RequestFailed =>
        pauses := pauses + [2];
      case Success(data) =>
        if data.Some? && data.value != [] {
          cards := data;
        } else {
          cards := None;
        }
        return;
    }
    cards := None;
  }

  /** When every attempt is a 429 or a failure, the call returns None after
      exactly `retries` requests, each followed by its pause. */
  lemma FetchExhausted(answer: nat -> Outcome, retries: int)
    requires forall i :: 0 <= i < Budget(retries) ==> Retryable(answer(i))
    ensures FetchSpec(answer, retries) == Fetched(None, Budget(retries), Pauses(answer, Budget(retries)))
  {
  }

  /** The first success ends the call on that very attempt: its cards are
      returned when `data` is non-empty, None otherwise, and no request
      follows it. */
  lemma FetchStopsAtFirstSuccess(answer: nat -> Outcome, retries: int, j: nat)
    requires j < Budget(retries)
    requires forall i :: 0 <= i < j ==> Retryable(answer(i))
    requires answer(j).Success?
    ensures var f := FetchSpec(answer, retries);
            && f.requests == j + 1
            && f.pauses == Pauses(answer, j)
            && (f.cards.Some? <==> answer(j).data.Some? && answer(j).data.value != [])
            && (f.cards.Some? ==> f.cards == answer(j).data)
  {
  }

  /** A 429 followed by a reply with cards: two requests, one pause of 5,
      and the cards are returned. */
  lemma FetchAfterRateLimit(answer: nat -> Outcome, cards: seq<Card>)
    requires answer(0) == RateLimited && answer(1) == Success(Some(cards)) && cards != []
    ensures FetchSpec(answer, DefaultRetries) == Fetched(Some(cards), 2, [5])
  {
    assert FirstSuccess(answer, 0, 3) == 1;
    assert Pauses(answer, 1) == [5];
  }

  // ---------------------------------------------------------------------
  // Row selection and the query
  // ---------------------------------------------------------------------

  /** safe_strip: strips strings, leaves every other value as it is. */
  function SafeStrip(v: Value): (r: Value)
    ensures v.Str? ==> r == Str(Strip(v.s))
    ensures !v.Str? ==> r == v
  {
    if v.Str? then Str(Strip(v.s)) else v
  }

  /** safe_strip is idempotent. */
  lemma SafeStripIdempotent(v: Value)
    ensures SafeStrip(SafeStrip(v)) == SafeStrip(v)
  {
    if v.Str? {
      StripIdempotent(v.s);
    }
  }

  /** The Status test: the cell is a string that, stripped and lowercased, is
      "search". */
  predicate IsSearchStatus(v: Value)
    ensures IsSearchStatus(v) ==> v.Str? && |Strip(v.s)| == 6
  {
    v.Str? && Lower(Strip(v.s)) == "search"
  }

  lemma NotSpaceIfLowerIsLetter(c: char)
    requires 'a' <= LowerChar(c) <= 'z'
    ensures !IsSpace(c)
  {
  }

  /** A Status cell that passes is "search" in some letter case, padded with
      whitespace. */
  lemma SearchStatusIsPaddedSearch(s: string)
    requires IsSearchStatus(Str(s))
    ensures exists i, j :: 0 <= i <= j <= |s| && AllSpace(s[..i]) && AllSpace(s[j..])
                           && Lower(s[i..j]) == "search"
  {
    var r := Strip(s);
    var i :| 0 <= i <= i + |r| <= |s| && r == s[i..i + |r|] && AllSpace(s[..i]) && AllSpace(s[i + |r|..]);
    assert Lower(s[i..i + |r|]) == "search";
  }

  /** "search" in any letter case, padded with whitespace, passes. */
  lemma PaddedSearchIsSearchStatus(s: string, i: nat, j: nat)
    requires i <= j <= |s| && AllSpace(s[..i]) && AllSpace(s[j..])
    requires Lower(s[i..j]) == "search"
    ensures IsSearchStatus(Str(s))
  {
    var t := s[i..j];
    assert LowerChar(t[0]) == 's' && LowerChar(t[5]) == 'h';
    NotSpaceIfLowerIsLetter(t[0]);
    NotSpaceIfLowerIsLetter(t[5]);
    assert s == s[..i] + t + s[j..];
    StripPadded(s[..i], t, s[j..]);
  }

  /** A Status cell passes exactly when it is a string holding "search" in
      any letter case, padded with whitespace on either side. */
  lemma SearchStatusExactly(v: Value)
    ensures IsSearchStatus(v) <==>
            v.Str? && exists i, j :: 0 <= i <= j <= |v.s| && AllSpace(v.s[..i]) && AllSpace(v.s[j..])
                                     && Lower(v.s[i..j]) == "search"
  {
    if IsSearchStatus(v) {
      SearchStatusIsPaddedSearch(v.s);
    }
    if v.Str? && exists i, j :: 0 <= i <= j <= |v.s| && AllSpace(v.s[..i]) && AllSpace(v.s[j..])
                                && Lower(v.s[i..j]) == "search" {
      var i, j :| 0 <= i <= j <= |v.s| && AllSpace(v.s[..i]) && AllSpace(v.s[j..]) && Lower(v.s[i..j]) == "search";
      PaddedSearchIsSearchStatus(v.s, i, j);
    }
  }

  /** The query string `name:"…" set.name:"…" number:"…"`. */
  function QueryText(name: string, setName: string, number: string): (q: string)
    ensures |q| == |name| + |setName| + |number| + 29
    ensures q[..6] == "name:\"" && q[6..6 + |name|] == name && q[|q| - 1] == '"'
  {
    "name:\"" + (name + ("\" set.name:\"" + (setName + ("\" number:\"" + (number + "\"")))))
  }

  lemma SplitAtQuote(a: string, x: string, b: string, y: string)
    requires '"' !in a && '"' !in b
    requires x != [] && x[0] == '"' && y != [] && y[0] == '"'
    requires a + x == b + y
    ensures a == b && x == y
  {
    assert a == (a + x)[..|a|] == (b + y)[..|b|] == b;
  }

  lemma DropPrefix(p: string, x: string, y: string)
    requires p + x == p + y
    ensures x == y
  {
    assert x == (p + x)[|p|..];
  }

  /** The query determines its three fields whenever none of them contains a
      double quote. */
  lemma QueryInjective(n1: string, s1: string, k1: string, n2: string, s2: string, k2: string)
    requires '"' !in n1 && '"' !in s1 && '"' !in k1
    requires '"' !in n2 && '"' !in s2 && '"' !in k2
    requires QueryText(n1, s1, k1) == QueryText(n2, s2, k2)
    ensures n1 == n2 && s1 == s2 && k1 == k2
  {
    var p2, p3, p4 := "\" set.name:\"", "\" number:\"", "\"";
    var t1, t2 := p3 + (k1 + p4), p3 + (k2 + p4);
    var r1, r2 := p2 + (s1 + t1), p2 + (s2 + t2);
    DropPrefix("name:\"", n1 + r1, n2 + r2);
    SplitAtQuote(n1, r1, n2, r2);
    DropPrefix(p2, s1 + t1, s2 + t2);
    SplitAtQuote(s1, t1, s2, t2);
    DropPrefix(p3, k1 + p4, k2 + p4);
    SplitAtQuote(k1, p4, k2, p4);
  }

  /** What the scan does with one record. */
  datatype RowPlan =
    | StatusNotText             // .lower() raises; the handler logs it
    | NotSelected               // Status is not "search"
    | NameEmpty                 // warned about and skipped
    | Query(text: string, shiny: Value)

  /** The decisions of the scan loop's body up to the call of
      fetch_card_details. Only the name is stripped; Set and Card Number go
      into the query as they are. */
  function PlanRow(rec: Record): (p: RowPlan)
    ensures p.Query? <==> IsSearchStatus(rec.status) && Truthy(SafeStrip(rec.name))
    ensures p.StatusNotText? <==> !rec.status.Str?
    ensures p.Query? ==> p == Query(QueryText(Render(SafeStrip(rec.name)), Render(rec.setName), Render(rec.cardNumber)), rec.shiny)
  {
    var status := SafeStrip(rec.status);
    if !status.Str? then StatusNotText
    else if Lower(status.s) != "search" then NotSelected
    else
      var name := SafeStrip(rec.name);
      if !Truthy(name) then NameEmpty
      else Query(QueryText(Render(name), Render(rec.setName), Render(rec.cardNumber)), rec.shiny)
  }

  // ---------------------------------------------------------------------
  // process_search_results
  // ---------------------------------------------------------------------

  /** The row appended to the Search Results sheet for one card, one cell
      per column of that sheet's header: Card Name, Set Name,
      Trainer/Pokemon, Card Number, Rarity, the Normal, Reverse Holofoil and
      Holofoil market prices, Unique Identifier and TCGPlayer URL. A missing
      key gives `''`. */
  function ResultRow(c: Card): (r: seq<Value>)
    ensures |r| == 10
  {
    [ Field(c.name),
      if c.cardSet.Some? then Field(c.cardSet.value.name) else Str(""),
      Field(c.supertype),
      Field(c.number),
      Field(c.rarity),
      MarketPrice(c, Normal),
      MarketPrice(c, ReverseHolofoil),
      MarketPrice(c, Holofoil),
      Field(c.id),
      if c.tcgplayer.Some? then Field(c.tcgplayer.value.url) else Str("") ]
  }

  /** What each cell of a card's Search Results row holds, column by
      column: Card Name, Set Name, Trainer/Pokemon (the supertype), Card
      Number, Rarity, the Normal, Reverse Holofoil and Holofoil market
      prices, Unique Identifier and TCGPlayer URL. */
  lemma ResultRowCells(c: Card)
    ensures var r := ResultRow(c);
            && r[0] == Field(c.name)
            && r[1] == (if c.cardSet.Some? then Field(c.cardSet.value.name) else Str(""))
            && r[2] == Field(c.supertype) && r[3] == Field(c.number) && r[4] == Field(c.rarity)
            && r[5] == MarketPrice(c, Normal)
            && r[6] == MarketPrice(c, ReverseHolofoil)
            && r[7] == MarketPrice(c, Holofoil)
            && r[8] == Field(c.id)
            && r[9] == (if c.tcgplayer.Some? then Field(c.tcgplayer.value.url) else Str(""))
  {
  }

  /** The rows appended for a list of cards, one per card. */
  function ResultRows(cards: seq<Card>): (r: seq<seq<Value>>)
    ensures |r| == |cards|
  {
    seq(|cards|, i requires 0 <= i < |cards| => ResultRow(cards[i]))
  }

  /** The results rows keep the order of the cards: row k is card k's. */
  lemma ResultRowsInOrder(cards: seq<Card>)
    ensures forall k :: 0 <= k < |cards| ==> ResultRows(cards)[k] == ResultRow(cards[k])
  {
  }

  /** The updates queued for a record, read off the last result row. */
  function CellUpdates(row: int, lastRow: seq<Value>, shiny: Value): (u: seq<Update>)
    requires |lastRow| == 10
    ensures |u| == (if VariantOf(shiny).Some? then 4 else 3)
    ensures forall k :: 0 <= k < |u| ==> u[k].row == row && u[k].col in SearchColumns
    ensures forall k, m :: 0 <= k < m < |u| ==> u[k].col != u[m].col
  {
    var base := [ Update(row, StatusColumn, Str("Fetched")),
                  Update(row, IdentifierColumn, lastRow[8]),
                  Update(row, TypeColumn, lastRow[2]) ];
    match VariantOf(shiny)
    case Some(Normal) => base + [Update(row, PriceColumn, lastRow[5])]
    case Some(ReverseHolofoil) => base + [Update(row, PriceColumn, lastRow[6])]
    case Some(Holofoil) => base + [Update(row, PriceColumn, lastRow[7])]
    case None => base
  }

  /** The updates for a record all target its own row: Status becomes
      "Fetched", Unique Identifier and Type take the last card's id and
      supertype, and Price is written, with the last card's market price for
      the row's finish, exactly when the Shiny cell names a finish. */
  lemma CellUpdatesOfLastCard(row: int, cards: seq<Card>, shiny: Value)
    requires cards != []
    ensures var u := CellUpdates(row, ResultRow(cards[|cards| - 1]), shiny);
            var last := cards[|cards| - 1];
            && |u| == (if VariantOf(shiny).Some? then 4 else 3)
            && (forall k :: 0 <= k < |u| ==> u[k].row == row)
            && u[0] == Update(row, StatusColumn, Str("Fetched"))
            && u[1] == Update(row, IdentifierColumn, Field(last.id))
            && u[2] == Update(row, TypeColumn, Field(last.supertype))
            && (VariantOf(shiny).Some? ==> u[3] == Update(row, PriceColumn, MarketPrice(last, VariantOf(shiny).value)))
  {
  }

  // ---------------------------------------------------------------------
  // The scan over the Collection records
  // ---------------------------------------------------------------------

  /** A call of fetch_card_details: the row it was made for, its query and
      how it went. */
  datatype Lookup = Lookup(row: int, query: string, fetched: Fetched)

  /** What a stretch of the scan produces: the calls made, the rows appended
      to Search Results and the cell updates queued. */
  datatype Effect = Effect(lookups: seq<Lookup>, resultRows: seq<seq<Value>>, updates: seq<Update>)
  {
    function Then(e: Effect): Effect {
      Effect(lookups + e.lookups, resultRows + e.resultRows, updates + e.updates)
    }
  }

  /** The answers the requests for one row receive. */
  function AnswersFor(respond: (int, nat) -> Outcome, row: int): nat -> Outcome {
    (a: nat) => respond(row, a)
  }

  /** How the lookup made for each sheet row ends, when the requests for
      row `row` receive `respond(row, 0)`, `respond(row, 1)`, ... */
  function LookupResults(respond: (int, nat) -> Outcome): int -> Fetched {
    (row: int) => FetchSpec(AnswersFor(respond, row), DefaultRetries)
  }

  /** Python's `if cards:` on what fetch_card_details returned: a list that
      is present and not empty. */
  predicate HasCards(f: Fetched)
    ensures HasCards(f) ==> f.cards.Some? && |f.cards.value| >= 1
    ensures f.cards.None? ==> !HasCards(f)
  {
    f.cards.Some? && f.cards.value != []
  }

  /** Since fetch_card_details never returns an empty list, `if cards:` on
      its result is the same test as `cards is not None`. */
  lemma LookupHasCards(respond: (int, nat) -> Outcome, row: int)
    ensures HasCards(LookupResults(respond)(row)) <==> LookupResults(respond)(row).cards.Some?
  {
    var f := FetchSpec(AnswersFor(respond, row), DefaultRetries);
    assert LookupResults(respond)(row) == f;
  }

  /** The effect of the loop body on a record whose plan is `plan`, when the
      lookup for its row, if one is made, ends as `f`. */
  function RowEffect(plan: RowPlan, row: int, f: Fetched): (e: Effect)
    ensures |e.lookups| <= 1 && (e.lookups != [] <==> plan.Query?)
    ensures e.lookups != [] ==> e.lookups[0] == Lookup(row, plan.text, f)
    ensures e.updates != [] <==> plan.Query? && HasCards(f)
    ensures e.resultRows != [] <==> plan.Query? && HasCards(f)
    ensures forall k :: 0 <= k < |e.updates| ==> e.updates[k].row == row && e.updates[k].col in SearchColumns
    ensures |e.updates| <= 4 * |e.lookups|
    ensures plan.Query? && HasCards(f) ==>
              var cards := f.cards.value;
              && e.resultRows == ResultRows(cards)
              && e.updates == CellUpdates(row, ResultRow(cards[|cards| - 1]), plan.shiny)
  {
    match plan
    case Query(text, shiny) =>
      if HasCards(f) then
        var cards := f.cards.value;
        CellUpdatesOfLastCard(row, cards, shiny);
        Effect([Lookup(row, text, f)], ResultRows(cards), CellUpdates(row, ResultRow(cards[|cards| - 1]), shiny))
      else
        Effect([Lookup(row, text, f)], [], [])
    case _ => Effect([], [], [])
  }

  /** The plans of a list of records, one per record. */
  function Plans(recs: seq<Record>): seq<RowPlan> {
    seq(|recs|, i requires 0 <= i < |recs| => PlanRow(recs[i]))
  }

  /** The effect of the scan over records with plans `plans`, the record at
      index i being sheet row i + 2 and its lookup ending as
      `fetched(i + 2)`. */
  function ScanEffect(plans: seq<RowPlan>, fetched: int -> Fetched): (e: Effect)
    ensures |e.lookups| <= |plans|
    ensures |e.updates| <= 4 * |e.lookups|
    decreases |plans|
  {
    if plans == [] then Effect([], [], [])
    else
      var n := |plans| - 1;
      ScanEffect(plans[..n], fetched).Then(RowEffect(plans[n], RowNumber(n), fetched(RowNumber(n))))
  }

  /** The inductive step of ScanLookupsSound: lookups for the first records,
      followed by the last record's lookup, if any. */
  lemma {:induction false} LookupsSoundStep(plans: seq<RowPlan>, l0: seq<Lookup>, r: seq<Lookup>)
    requires plans != []
    requires forall k :: 0 <= k < |l0| ==>
               var pre := plans[..|plans| - 1];
               2 <= l0[k].row < |plans| + 1 && pre[l0[k].row - 2].Query? && pre[l0[k].row - 2].text == l0[k].query
    requires |r| <= 1
    requires r != [] ==> r[0].row == |plans| + 1 && plans[|plans| - 1].Query? && plans[|plans| - 1].text == r[0].query
    ensures forall k :: 0 <= k < |l0 + r| ==>
              var l := (l0 + r)[k];
              2 <= l.row < |plans| + 2 && plans[l.row - 2].Query? && plans[l.row - 2].text == l.query
  {
    forall k | 0 <= k < |l0 + r|
      ensures var l := (l0 + r)[k];
              2 <= l.row < |plans| + 2 && plans[l.row - 2].Query? && plans[l.row - 2].text == l.query
    {
      if k < |l0| {
        assert (l0 + r)[k] == l0[k];
        assert plans[..|plans| - 1][l0[k].row - 2] == plans[l0[k].row - 2];
      } else {
        assert (l0 + r)[k] == r[0];
      }
    }
  }

  /** Every lookup belongs to a record planned for a query: it carries that
      record's row number (index + 2) and its query. */
  lemma {:induction false} ScanLookupsSound(plans: seq<RowPlan>, fetched: int -> Fetched, e: Effect)
    requires e == ScanEffect(plans, fetched)
    ensures forall k :: 0 <= k < |e.lookups| ==>
              && 2 <= e.lookups[k].row < |plans| + 2
              && plans[e.lookups[k].row - 2].Query?
              && plans[e.lookups[k].row - 2].text == e.lookups[k].query
  {
    if plans != [] {
      var n := |plans| - 1;
      var e0 := ScanEffect(plans[..n], fetched);
      ScanLookupsSound(plans[..n], fetched, e0);
      var r := RowEffect(plans[n], RowNumber(n), fetched(RowNumber(n)));
      LookupsSoundStep(plans, e0.lookups, r.lookups);
    }
  }

  /** The inductive step of ScanLookupsComplete. */
  lemma {:induction false} LookupsCompleteStep(plans: seq<RowPlan>, pre: seq<RowPlan>, l0: seq<Lookup>, r: seq<Lookup>)
    requires plans != [] && pre == plans[..|plans| - 1]
    requires forall i :: 0 <= i < |pre| && pre[i].Query? ==>
               exists k :: 0 <= k < |l0| && l0[k].row == i + 2
    requires plans[|plans| - 1].Query? ==> r != [] && r[0].row == |plans| + 1
    ensures forall i :: 0 <= i < |plans| && plans[i].Query? ==>
              exists k :: 0 <= k < |l0 + r| && (l0 + r)[k].row == i + 2
  {
    forall i | 0 <= i < |plans| && plans[i].Query?
      ensures exists k :: 0 <= k < |l0 + r| && (l0 + r)[k].row == i + 2
    {
      if i < |plans| - 1 {
        assert pre[i] == plans[i];
        var k :| 0 <= k < |l0| && l0[k].row == i + 2;
        assert (l0 + r)[k] == l0[k];
      } else {
        assert (l0 + r)[|l0|] == r[0];
      }
    }
  }

  /** Every record planned for a query gets a lookup. */
  lemma {:induction false} ScanLookupsComplete(plans: seq<RowPlan>, fetched: int -> Fetched, e: Effect)
    requires e == ScanEffect(plans, fetched)
    ensures forall i :: 0 <= i < |plans| && plans[i].Query? ==>
              exists k :: 0 <= k < |e.lookups| && e.lookups[k].row == i + 2
  {
    if plans != [] {
      var n := |plans| - 1;
      var e0 := ScanEffect(plans[..n], fetched);
      ScanLookupsComplete(plans[..n], fetched, e0);
      var r := RowEffect(plans[n], RowNumber(n), fetched(RowNumber(n)));
      LookupsCompleteStep(plans, plans[..n], e0.lookups, r.lookups);
    }
  }

  /** The inductive step of ScanLookupsOrdered: earlier rows first. */
  lemma {:induction false} LookupsOrderedStep(l0: seq<Lookup>, r: seq<Lookup>, row: int)
    requires forall k, m :: 0 <= k < m < |l0| ==> l0[k].row < l0[m].row
    requires forall k :: 0 <= k < |l0| ==> l0[k].row < row
    requires |r| <= 1 && (r != [] ==> r[0].row == row)
    ensures forall k, m :: 0 <= k < m < |l0 + r| ==> (l0 + r)[k].row < (l0 + r)[m].row
  {
    forall k, m | 0 <= k < m < |l0 + r| ensures (l0 + r)[k].row < (l0 + r)[m].row {
      assert (l0 + r)[k] == l0[k];
      if m < |l0| {
        assert (l0 + r)[m] == l0[m];
      } else {
        assert (l0 + r)[m] == r[0];
      }
    }
  }

  /** Lookups happen in row order, at most one per row. */
  lemma {:induction false} ScanLookupsOrdered(plans: seq<RowPlan>, fetched: int -> Fetched, e: Effect)
    requires e == ScanEffect(plans, fetched)
    ensures forall k, m :: 0 <= k < m < |e.lookups| ==> e.lookups[k].row < e.lookups[m].row
  {
    if plans != [] {
      var n := |plans| - 1;
      var e0 := ScanEffect(plans[..n], fetched);
      ScanLookupsOrdered(plans[..n], fetched, e0);
      ScanLookupsSound(plans[..n], fetched, e0);
      var r := RowEffect(plans[n], RowNumber(n), fetched(RowNumber(n)));
      LookupsOrderedStep(e0.lookups, r.lookups, RowNumber(n));
    }
  }

  /** The columns the search flow writes: Status, Unique Identifier, Type
      and Price. */
  const SearchColumns := {StatusColumn, IdentifierColumn, TypeColumn, PriceColumn}

  /** The inductive step of ScanUpdatesFromSelectedRows: updates from the
      first records, followed by the last record's updates. */
  lemma {:induction false} UpdatesFromSelectedStep(plans: seq<RowPlan>, u0: seq<Update>, r: seq<Update>)
    requires plans != []
    requires forall k :: 0 <= k < |u0| ==>
               2 <= u0[k].row < |plans| + 1 && plans[..|plans| - 1][u0[k].row - 2].Query? && u0[k].col in SearchColumns
    requires forall k :: 0 <= k < |r| ==> r[k].row == |plans| + 1 && r[k].col in SearchColumns
    requires r != [] ==> plans[|plans| - 1].Query?
    ensures forall k :: 0 <= k < |u0 + r| ==>
              var u := (u0 + r)[k];
              2 <= u.row < |plans| + 2 && plans[u.row - 2].Query? && u.col in SearchColumns
  {
    forall k | 0 <= k < |u0 + r|
      ensures var u := (u0 + r)[k];
              2 <= u.row < |plans| + 2 && plans[u.row - 2].Query? && u.col in SearchColumns
    {
      if k < |u0| {
        assert (u0 + r)[k] == u0[k];
      } else {
        assert (u0 + r)[k] == r[k - |u0|];
      }
    }
  }

  /** Updates are queued only for records planned for a query, and only in
      the Status, Unique Identifier, Type and Price columns. */
  lemma {:induction false} ScanUpdatesFromSelectedRows(plans: seq<RowPlan>, fetched: int -> Fetched, e: Effect)
    requires e == ScanEffect(plans, fetched)
    ensures forall k :: 0 <= k < |e.updates| ==>
              && 2 <= e.updates[k].row < |plans| + 2
              && plans[e.updates[k].row - 2].Query?
              && e.updates[k].col in SearchColumns
  {
    if plans != [] {
      var n := |plans| - 1;
      var e0 := ScanEffect(plans[..n], fetched);
      ScanUpdatesFromSelectedRows(plans[..n], fetched, e0);
      var r := RowEffect(plans[n], RowNumber(n), fetched(RowNumber(n)));
      UpdatesFromSelectedStep(plans, e0.updates, r.updates);
    }
  }

  /** The inductive step of ScanUpdatesOrdered: earlier rows first. */
  lemma {:induction false} UpdatesOrderedStep(u0: seq<Update>, r: seq<Update>, row: int)
    requires forall k, m :: 0 <= k < m < |u0| ==> u0[k].row <= u0[m].row
    requires forall k :: 0 <= k < |u0| ==> u0[k].row < row
    requires forall k :: 0 <= k < |r| ==> r[k].row == row
    ensures forall k, m :: 0 <= k < m < |u0 + r| ==> (u0 + r)[k].row <= (u0 + r)[m].row
  {
    forall k, m | 0 <= k < m < |u0 + r| ensures (u0 + r)[k].row <= (u0 + r)[m].row {
      if m < |u0| {
        assert (u0 + r)[k] == u0[k] && (u0 + r)[m] == u0[m];
      } else if k < |u0| {
        assert (u0 + r)[k] == u0[k] && (u0 + r)[m] == r[m - |u0|];
      } else {
        assert (u0 + r)[k] == r[k - |u0|] && (u0 + r)[m] == r[m - |u0|];
      }
    }
  }

  /** Updates are queued in row order. */
  lemma {:induction false} ScanUpdatesOrdered(plans: seq<RowPlan>, fetched: int -> Fetched, e: Effect)
    requires e == ScanEffect(plans, fetched)
    ensures forall k, m :: 0 <= k < m < |e.updates| ==> e.updates[k].row <= e.updates[m].row
  {
    if plans != [] {
      var n := |plans| - 1;
      var e0 := ScanEffect(plans[..n], fetched);
      ScanUpdatesOrdered(plans[..n], fetched, e0);
      ScanUpdatesFromSelectedRows(plans[..n], fetched, e0);
      var r := RowEffect(plans[n], RowNumber(n), fetched(RowNumber(n)));
      UpdatesOrderedStep(e0.updates, r.updates, RowNumber(n));
    }
  }

  /** The inductive step of ScanUpdatesFromMatchedRows. */
  lemma {:induction false} UpdatesMatchedStep(fetched: int -> Fetched, u0: seq<Update>, r: seq<Update>, row: int)
    requires forall k :: 0 <= k < |u0| ==> HasCards(fetched(u0[k].row))
    requires forall k :: 0 <= k < |r| ==> r[k].row == row
    requires r != [] ==> HasCards(fetched(row))
    ensures forall k :: 0 <= k < |u0 + r| ==> HasCards(fetched((u0 + r)[k].row))
  {
    forall k | 0 <= k < |u0 + r| ensures HasCards(fetched((u0 + r)[k].row)) {
      if k < |u0| {
        assert (u0 + r)[k] == u0[k];
      } else {
        assert (u0 + r)[k] == r[k - |u0|];
      }
    }
  }

  /** Updates are queued only for rows whose lookup returned cards: a
      searched record with no match gets none. */
  lemma {:induction false} ScanUpdatesFromMatchedRows(plans: seq<RowPlan>, fetched: int -> Fetched, e: Effect)
    requires e == ScanEffect(plans, fetched)
    ensures forall k :: 0 <= k < |e.updates| ==> HasCards(fetched(e.updates[k].row))
  {
    if plans != [] {
      var n := |plans| - 1;
      var e0 := ScanEffect(plans[..n], fetched);
      ScanUpdatesFromMatchedRows(plans[..n], fetched, e0);
      var r := RowEffect(plans[n], RowNumber(n), fetched(RowNumber(n)));
      UpdatesMatchedStep(fetched, e0.updates, r.updates, RowNumber(n));
    }
  }

  /** What the scan does for sheet row `row` once its lookup returned
      `cards`, in one piece: the cards' result rows, and the updates read
      off the last of them. */
  ghost predicate RowOutputIn(row: int, shiny: Value, cards: seq<Card>, e: Effect)
    requires cards != []
  {
    var results := ResultRows(cards);
    var updates := CellUpdates(row, ResultRow(cards[|cards| - 1]), shiny);
    && (exists p :: SliceAt(e.resultRows, p, results))
    && (exists p :: SliceAt(e.updates, p, updates))
  }

  /** The result rows and the updates of `r` each occur, unbroken, in `e`. */
  ghost predicate EffectWithin(r: Effect, e: Effect) {
    && (exists p :: SliceAt(e.resultRows, p, r.resultRows))
    && (exists q :: SliceAt(e.updates, q, r.updates))
  }

  /** What occurs in an effect still occurs once more is appended. */
  lemma {:induction false} EffectWithinExtend(r: Effect, e0: Effect, t: Effect)
    requires EffectWithin(r, e0)
    ensures EffectWithin(r, e0.Then(t))
  {
    var p :| SliceAt(e0.resultRows, p, r.resultRows);
    SliceAtExtend(e0.resultRows, t.resultRows, p, r.resultRows);
    var q :| SliceAt(e0.updates, q, r.updates);
    SliceAtExtend(e0.updates, t.updates, q, r.updates);
  }

  /** The scan's effect holds every record's own effect, unbroken. */
  lemma {:induction false} ScanRowWithin(plans: seq<RowPlan>, fetched: int -> Fetched, e: Effect, i: int)
    requires e == ScanEffect(plans, fetched) && 0 <= i < |plans|
    ensures EffectWithin(RowEffect(plans[i], RowNumber(i), fetched(RowNumber(i))), e)
  {
    var n := |plans| - 1;
    var pre := plans[..n];
    var e0 := ScanEffect(pre, fetched);
    var r := RowEffect(plans[n], RowNumber(n), fetched(RowNumber(n)));
    if i < n {
      assert pre[i] == plans[i];
      ScanRowWithin(pre, fetched, e0, i);
    }
    WithinStep(RowEffect(plans[i], RowNumber(i), fetched(RowNumber(i))), e0, r, i == n);
  }

  /** The inductive step of ScanRowWithin: a record's effect occurs in the
      first records' effect, or it is the last record's own. */
  lemma WithinStep(x: Effect, e0: Effect, r: Effect, last: bool)
    requires last ==> x == r
    requires !last ==> EffectWithin(x, e0)
    ensures EffectWithin(x, e0.Then(r))
  {
    if last {
      SliceAtEnd(e0.resultRows, r.resultRows);
      SliceAtEnd(e0.updates, r.updates);
    } else {
      EffectWithinExtend(x, e0, r);
    }
  }

  /** Every searched record whose lookup returned cards gets all of them
      appended to Search Results, and the updates read off the last one
      queued, each as one unbroken stretch. */
  lemma {:induction false} ScanMatchedRowComplete(plans: seq<RowPlan>, fetched: int -> Fetched, e: Effect, i: int)
    requires e == ScanEffect(plans, fetched)
    requires 0 <= i < |plans| && plans[i].Query? && HasCards(fetched(RowNumber(i)))
    ensures RowOutputIn(RowNumber(i), plans[i].shiny, fetched(RowNumber(i)).cards.value, e)
  {
    ScanRowWithin(plans, fetched, e, i);
    MatchedRowWithin(plans[i], RowNumber(i), fetched(RowNumber(i)), e);
  }

  /** A matched record's own effect is its cards' result rows and the
      updates read off the last of them. */
  lemma {:induction false} MatchedRowWithin(plan: RowPlan, row: int, f: Fetched, e: Effect)
    requires plan.Query? && HasCards(f) && EffectWithin(RowEffect(plan, row, f), e)
    ensures RowOutputIn(row, plan.shiny, f.cards.value, e)
  {
    var r := RowEffect(plan, row, f);
    var cards := f.cards.value;
    var results := ResultRows(cards);
    var updates := CellUpdates(row, ResultRow(cards[|cards| - 1]), plan.shiny);
    assert r.resultRows == results && r.updates == updates;
    var p :| SliceAt(e.resultRows, p, r.resultRows);
    var q :| SliceAt(e.updates, q, r.updates);
    assert SliceAt(e.resultRows, p, results) && SliceAt(e.updates, q, updates);
  }

  /** One more record extends the scan's effect by that record's effect. */
  lemma {:induction false} ScanEffectStep(plans: seq<RowPlan>, i: nat, fetched: int -> Fetched)
    requires i < |plans|
    ensures ScanEffect(plans[..i + 1], fetched) == ScanEffect(plans[..i], fetched).Then(RowEffect(plans[i], RowNumber(i), fetched(RowNumber(i))))
  {
    assert plans[..i + 1][..i] == plans[..i];
  }

  /** The search flow's module-level state: the queued updates and the
      Search Results sheet (modelled as the rows appended to it), plus the
      record of catalog lookups made. */
  class SearchJob {
    var updatesToWrite: seq<Update>
    var searchResults: seq<seq<Value>>
    var lookups: seq<Lookup>

    constructor ()
      ensures updatesToWrite == [] && searchResults == [] && lookups == []
    {
      updatesToWrite, searchResults, lookups := [], [], [];
    }

    /** process_search_results: appends one result row per card, in order,
        and returns the updates built from the last one. */
    method ProcessSearchResults(cards: seq<Card>, rowNumber: int, cardShiny: Value)
      returns (updates: seq<Update>)
      requires cards != []
      modifies this`searchResults
      ensures searchResults == old(searchResults) + ResultRows(cards)
      ensures updates == CellUpdates(rowNumber, ResultRow(cards[|cards| - 1]), cardShiny)
    {
      var newRow: seq<Value> := [];
      for k := 0 to |cards|
        invariant searchResults == old(searchResults) + ResultRows(cards[..k])
        invariant k > 0 ==> newRow == ResultRow(cards[k - 1])
      {
        newRow := ResultRow(cards[k]);
        assert ResultRows(cards[..k + 1]) == ResultRows(cards[..k]) + [newRow];
        searchResults := searchResults + [newRow];
      }
      assert cards[..|cards|] == cards;
      updates := [ Update(rowNumber, StatusColumn, Str("Fetched")),
                   Update(rowNumber, IdentifierColumn, newRow[8]),
                   Update(rowNumber, TypeColumn, newRow[2]) ];
      if cardShiny == Str("Normal") {
        updates := updates + [Update(rowNumber, PriceColumn, newRow[5])];
      } else if cardShiny == Str("Reverse Holofoil") {
        updates := updates + [Update(rowNumber, PriceColumn, newRow[6])];
      } else if cardShiny == Str("Holofoil") {
        updates := updates + [Update(rowNumber, PriceColumn, newRow[7])];
      }
    }

    /** The body of the scan loop for a record that passed the Status and
        Name tests: look the query up and, when cards come back, process
        them. */
    method SearchRow(query: string, cardShiny: Value, rowNumber: int, respond: (int, nat) -> Outcome)
      modifies this
      ensures var e := RowEffect(Query(query, cardShiny), rowNumber, LookupResults(respond)(rowNumber));
              && updatesToWrite == old(updatesToWrite) + e.updates
              && searchResults == old(searchResults) + e.resultRows
              && lookups == old(lookups) + e.lookups
    {
      var cards, requests, pauses := FetchCardDetailsLoop(AnswersFor(respond, rowNumber), DefaultRetries);
      var fetched := Fetched(cards, requests, pauses);
      assert fetched == LookupResults(respond)(rowNumber);
      lookups := lookups + [Lookup(rowNumber, query, fetched)];
      if cards.Some? && cards.value != [] {
        var updates := ProcessSearchResults(cards.value, rowNumber, cardShiny);
        updatesToWrite := updatesToWrite + updates;
      }
    }

    /** The body of the scan loop for one record: the Status and Name tests,
        then the lookup and the processing of its cards. */
    method ScanRow(record: Record, rowNumber: int, respond: (int, nat) -> Outcome)
      modifies this
      ensures var e := RowEffect(PlanRow(record), rowNumber, LookupResults(respond)(rowNumber));
              && updatesToWrite == old(updatesToWrite) + e.updates
              && searchResults == old(searchResults) + e.resultRows
              && lookups == old(lookups) + e.lookups
    {
      var plan := PlanRow(record);
      match plan {
        case Query(query, cardShiny) =>
          SearchRow(query, cardShiny, rowNumber, respond);
        case _ =>
          assert RowEffect(plan, rowNumber, LookupResults(respond)(rowNumber)) == Effect([], [], []);
      }
    }

    /** The scan loop: `respond(row, a)` is how the a-th request made for
        sheet row `row` ends. */
    method ScanRows(records: seq<Record>, respond: (int, nat) -> Outcome)
      modifies this
      ensures var e := ScanEffect(Plans(records), LookupResults(respond));
              && updatesToWrite == old(updatesToWrite) + e.updates
              && searchResults == old(searchResults) + e.resultRows
              && lookups == old(lookups) + e.lookups
    {
      ghost var plans := Plans(records);
      ghost var fetched := LookupResults(respond);
      for i := 0 to |records|
        invariant var e := ScanEffect(plans[..i], fetched);
                  && updatesToWrite == old(updatesToWrite) + e.updates
                  && searchResults == old(searchResults) + e.resultRows
                  && lookups == old(lookups) + e.lookups
      {
        ghost var before := ScanEffect(plans[..i], fetched);
        ghost var here := RowEffect(plans[i], RowNumber(i), fetched(RowNumber(i)));
        ScanEffectStep(plans, i, fetched);
        ScanRow(records[i], RowNumber(i), respond);
        Associative(old(updatesToWrite), before.updates, here.updates);
        Associative(old(searchResults), before.resultRows, here.resultRows);
        Associative(old(lookups), before.lookups, here.lookups);
      }
      assert plans[..|records|] == plans;
    }

    /** The batch written at the end of the run. */
    function Batch(a1: (int, int) -> string): (r: seq<Entry>)
      reads this
      ensures |r| == |updatesToWrite|
      ensures forall k :: 0 <= k < |r| ==>
                r[k] == Entry(a1(updatesToWrite[k].row, updatesToWrite[k].col), [[updatesToWrite[k].value]])
    {
      BatchUpdates(updatesToWrite, a1)
    }
  }
}
