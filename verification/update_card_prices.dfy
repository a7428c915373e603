/** The price refresh flow (update_card_prices.py): for every Collection record
    with a Unique Identifier, fetch that card from the catalog, queue its
    market price for the row's finish into the Price column, log how the call
    went and pause; finally write the queue in one batch. */
module UpdateCardPrices {
  import opened Py
  import opened Catalog
  import opened Sheet

  /** The body of a reply: one `response.json().get(...)` cannot read (not
      JSON, or JSON that is not an object: either way the call raises), or a
      JSON object whose `data` key is missing or null (`None`) or holds a
      card object. */
  datatype Body = Unparsable | Json(data: Option<Card>)

  /** How `requests.get` ends: the request raises (no connection, a timeout),
      or a reply arrives with a status code and a body. */
  datatype Response = ConnectionFailed | Reply(status: int, body: Body)

  /** How a call of fetch_card_price ends: it returns None, it returns the
      1-tuple `(None,)` that the trailing comma after `updates.append(…)`
      builds, or it raises. */
  datatype Call = ReturnedNone | ReturnedTuple | Raised

  /** The log line main writes for a row it fetched: "Added price …",
      "No price found …" or "Error processing row …". */
  datatype Report = Added(row: int) | NoPrice(row: int) | Failed(row: int)

  const CardsEndpoint := "https://api.pokemontcg.io/v2/cards/"

  /** Seconds main sleeps after every row it fetched. */
  const RowPause := 5

  /** The URL fetch_card_price requests for a Unique Identifier: the cards
      endpoint followed by the identifier's text. */
  function CardUrl(uniqueIdentifier: Value): (url: string)
    ensures |url| == |CardsEndpoint| + |Render(uniqueIdentifier)|
    ensures CardsEndpoint <= url
    ensures url[|CardsEndpoint|..] == Render(uniqueIdentifier)
  {
    CardsEndpoint + Render(uniqueIdentifier)
  }

  /** Different string identifiers are requested at different URLs. */
  lemma CardUrlInjective(a: string, b: string)
    ensures CardUrl(Str(a)) == CardUrl(Str(b)) <==> a == b
  {
    if CardUrl(Str(a)) == CardUrl(Str(b)) {
      assert a == CardUrl(Str(a))[|CardsEndpoint|..];
    }
  }

  /** The responses on which fetch_card_price raises: the request itself
      fails, or a 200 reply does not decode as JSON. */
  predicate Raises(response: Response)
    ensures Raises(response) ==> response.ConnectionFailed? || response.status == 200
  {
    response.ConnectionFailed? || (response.status == 200 && response.body.Unparsable?)
  }

  /** The card fetch_card_price reads a price from: `data` of a 200 reply,
      when it is present and is not the empty object. */
  function ReplyCard(response: Response): (r: Option<Card>)
    ensures r.Some? ==> response.Reply? && response.status == 200 && !Raises(response)
    ensures r.Some? ==> response.body == Json(r) && !IsEmptyObject(r.value)
    ensures (&& response.Reply? && response.status == 200 && response.body.Json?
             && response.body.data.Some? && !IsEmptyObject(response.body.data.value)) ==> r.Some?
  {
    if response.Reply? && response.status == 200 && response.body.Json?
       && response.body.data.Some? && !IsEmptyObject(response.body.data.value)
    then response.body.data
    else None
  }

  /** What fetch_card_price appends to the update queue: at most one
      update, present exactly when the reply held a card and the Shiny cell
      names a finish, and then the card's market price for that finish in
      the row's Price cell. A call that raises queues nothing. */
  function PriceUpdate(row: int, shiny: Value, response: Response): (u: seq<Update>)
    ensures |u| <= 1
    ensures u != [] <==> ReplyCard(response).Some? && VariantOf(shiny).Some?
    ensures u != [] ==> u[0] == Update(row, PriceColumn, MarketPrice(ReplyCard(response).value, VariantOf(shiny).value))
    ensures Raises(response) ==> u == []
  {
    var card := ReplyCard(response);
    var variant := VariantOf(shiny);
    if card.Some? && variant.Some? then [Update(row, PriceColumn, MarketPrice(card.value, variant.value))]
    else []
  }

  /** What fetch_card_price returns. Only the Normal and Reverse Holofoil
      branches return the 1-tuple; the Holofoil branch returns what
      `append` returns, None. */
  function Returned(shiny: Value, response: Response): (call: Call)
    ensures call == Raised <==> Raises(response)
    ensures call == ReturnedTuple <==>
              ReplyCard(response).Some? && shiny in {Str("Normal"), Str("Reverse Holofoil")}
  {
    if Raises(response) then Raised
    else if ReplyCard(response).Some? && VariantOf(shiny) in {Some(Normal), Some(ReverseHolofoil)} then ReturnedTuple
    else ReturnedNone
  }

  /** The log line main writes for a call: `price is not None`, `None`, or
      an exception caught by the handler. */
  function ReportFor(row: int, call: Call): (r: Report)
    ensures r.row == row
    ensures r.Added? <==> call == ReturnedTuple
    ensures r.Failed? <==> call == Raised
  {
    match call
    case ReturnedTuple => Added(row)
    case ReturnedNone => NoPrice(row)
    case Raised => Failed(row)
  }

  /** How what one call of fetch_card_price queues relates to what it
      returns: it reports the price as added exactly when it queued one for a
      Normal or Reverse Holofoil card; for a Holofoil card the price is
      queued, yet main logs that no price was found; and a call that queues
      nothing without raising returns None. */
  lemma PriceCallOutcomes(row: int, shiny: Value, response: Response)
    ensures var u := PriceUpdate(row, shiny, response);
            var call := Returned(shiny, response);
            && (call == ReturnedTuple <==> u != [] && shiny in {Str("Normal"), Str("Reverse Holofoil")})
            && (u != [] && call != ReturnedTuple <==> ReplyCard(response).Some? && shiny == Str("Holofoil"))
            && (u == [] && call != Raised ==> call == ReturnedNone)
  {
  }

  /** What main does for one record that is sheet row `row`. */
  datatype Refresh = Refresh(requested: seq<string>, updates: seq<Update>, reports: seq<Report>, pauses: seq<int>)
  {
    function Then(r: Refresh): Refresh {
      Refresh(requested + r.requested, updates + r.updates, reports + r.reports, pauses + r.pauses)
    }
  }

  /** The loop body of main for one record, the request being answered by
      `response`: records without a truthy Unique Identifier are skipped
      without a request or a pause. */
  function RowRefresh(rec: Record, row: int, response: Response): (r: Refresh)
    ensures |r.requested| == |r.reports| == |r.pauses| == (if Truthy(rec.uniqueIdentifier) then 1 else 0)
    ensures |r.updates| <= |r.reports|
  {
    if Truthy(rec.uniqueIdentifier) then
      var call := Returned(rec.shiny, response);
      Refresh([CardUrl(rec.uniqueIdentifier)], PriceUpdate(row, rec.shiny, response), [ReportFor(row, call)], [RowPause])
    else Refresh([], [], [], [])
  }

  /** The effect of main's loop over `recs`, the record at index i being sheet
      row i + 2 and its request being answered by `respond(i + 2)`. */
  function RefreshEffect(recs: seq<Record>, respond: int -> Response): (e: Refresh)
    ensures |e.requested| == |e.reports| == |e.pauses| <= |recs|
    ensures |e.updates| <= |e.reports|
    decreases |recs|
  {
    if recs == [] then Refresh([], [], [], [])
    else
      var n := |recs| - 1;
      RefreshEffect(recs[..n], respond).Then(RowRefresh(recs[n], RowNumber(n), respond(RowNumber(n))))
  }

  /** One more record extends the effect of main's loop by that record's. */
  lemma {:induction false} RefreshEffectStep(recs: seq<Record>, i: nat, respond: int -> Response)
    requires i < |recs|
    ensures RefreshEffect(recs[..i + 1], respond)
            == RefreshEffect(recs[..i], respond).Then(RowRefresh(recs[i], RowNumber(i), respond(RowNumber(i))))
  {
    assert recs[..i + 1][..i] == recs[..i];
  }

  /** Every queued update is a Price cell of a record with a truthy Unique
      Identifier and a recognised finish, whose reply held a card, and it
      holds that card's market price for the finish. */
  lemma {:induction false} RefreshUpdatesSound(recs: seq<Record>, respond: int -> Response, e: Refresh)
    requires e == RefreshEffect(recs, respond)
    ensures forall k :: 0 <= k < |e.updates| ==>
              var row := e.updates[k].row;
              && 2 <= row < |recs| + 2
              && e.updates[k].col == PriceColumn
              && Truthy(recs[row - 2].uniqueIdentifier)
              && VariantOf(recs[row - 2].shiny).Some?
              && ReplyCard(respond(row)).Some?
              && e.updates[k].value == MarketPrice(ReplyCard(respond(row)).value, VariantOf(recs[row - 2].shiny).value)
  {
    if recs != [] {
      var n := |recs| - 1;
      var pre := recs[..n];
      var e0 := RefreshEffect(pre, respond);
      RefreshUpdatesSound(pre, respond, e0);
      var r := RowRefresh(recs[n], RowNumber(n), respond(RowNumber(n))).updates;
      assert e.updates == e0.updates + r;
      assert pre == recs[..n];
      UpdatesSoundStep(recs, respond, n, RowNumber(n), e0.updates, r);
    }
  }

  /** The queued prices of a stretch of records, each on the row of a
      record with a truthy identifier, a finish and a card, as
      RefreshUpdatesSound states. */
  ghost predicate UpdatesSoundFor(recs: seq<Record>, respond: int -> Response, updates: seq<Update>) {
    forall k :: 0 <= k < |updates| ==>
      var row := updates[k].row;
      && 2 <= row < |recs| + 2
      && updates[k].col == PriceColumn
      && Truthy(recs[row - 2].uniqueIdentifier)
      && VariantOf(recs[row - 2].shiny).Some?
      && ReplyCard(respond(row)).Some?
      && updates[k].value == MarketPrice(ReplyCard(respond(row)).value, VariantOf(recs[row - 2].shiny).value)
  }

  /** The inductive step of RefreshUpdatesSound: the first n records'
      prices, followed by record n's, if any. */
  lemma {:induction false} UpdatesSoundStep(recs: seq<Record>, respond: int -> Response, n: int, row: int,
                                            u0: seq<Update>, r: seq<Update>)
    requires 0 <= n < |recs| && row == n + 2 && UpdatesSoundFor(recs[..n], respond, u0)
    requires r == [] || (Truthy(recs[n].uniqueIdentifier) && r == PriceUpdate(row, recs[n].shiny, respond(row)))
    ensures UpdatesSoundFor(recs, respond, u0 + r)
  {
    var pre := recs[..n];
    forall k | 0 <= k < |u0 + r|
      ensures var row := (u0 + r)[k].row;
              && 2 <= row < |recs| + 2
              && (u0 + r)[k].col == PriceColumn
              && Truthy(recs[row - 2].uniqueIdentifier)
              && VariantOf(recs[row - 2].shiny).Some?
              && ReplyCard(respond(row)).Some?
              && (u0 + r)[k].value == MarketPrice(ReplyCard(respond(row)).value, VariantOf(recs[row - 2].shiny).value)
    {
      if k < |u0| {
        assert (u0 + r)[k] == u0[k];
        assert pre[u0[k].row - 2] == recs[u0[k].row - 2];
      } else {
        assert (u0 + r)[k] == r[0];
      }
    }
  }

  /** Every record with a truthy Unique Identifier and a recognised finish
      whose reply held a card gets a queued price. */
  lemma {:induction false} RefreshUpdatesComplete(recs: seq<Record>, respond: int -> Response, e: Refresh)
    requires e == RefreshEffect(recs, respond)
    ensures forall i :: 0 <= i < |recs| && Truthy(recs[i].uniqueIdentifier) && VariantOf(recs[i].shiny).Some?
                        && ReplyCard(respond(i + 2)).Some? ==>
              exists k :: 0 <= k < |e.updates| && e.updates[k].row == i + 2
  {
    if recs != [] {
      var n := |recs| - 1;
      var pre := recs[..n];
      var e0 := RefreshEffect(pre, respond);
      RefreshUpdatesComplete(pre, respond, e0);
      var r := RowRefresh(recs[n], RowNumber(n), respond(RowNumber(n))).updates;
      assert e.updates == e0.updates + r;
      assert pre == recs[..n];
      UpdatesCompleteStep(recs, respond, n, RowNumber(n), e0.updates, r);
    }
  }

  /** The inductive step of RefreshUpdatesComplete: the first n records'
      prices, followed by record n's, if it has one. */
  lemma {:induction false} UpdatesCompleteStep(recs: seq<Record>, respond: int -> Response, n: int, row: int,
                                               u0: seq<Update>, r: seq<Update>)
    requires 0 <= n == |recs| - 1 && row == n + 2
    requires forall i :: 0 <= i < n && Truthy(recs[..n][i].uniqueIdentifier) && VariantOf(recs[..n][i].shiny).Some?
                         && ReplyCard(respond(i + 2)).Some? ==>
               exists k :: 0 <= k < |u0| && u0[k].row == i + 2
    requires Truthy(recs[n].uniqueIdentifier) ==> r == PriceUpdate(row, recs[n].shiny, respond(row))
    ensures forall i :: 0 <= i < |recs| && Truthy(recs[i].uniqueIdentifier) && VariantOf(recs[i].shiny).Some?
                        && ReplyCard(respond(i + 2)).Some? ==>
              exists k :: 0 <= k < |u0 + r| && (u0 + r)[k].row == i + 2
  {
    forall i | 0 <= i < |recs| && Truthy(recs[i].uniqueIdentifier) && VariantOf(recs[i].shiny).Some?
               && ReplyCard(respond(i + 2)).Some?
      ensures exists k :: 0 <= k < |u0 + r| && (u0 + r)[k].row == i + 2
    {
      if i < n {
        assert recs[..n][i] == recs[i];
        var k :| 0 <= k < |u0| && u0[k].row == i + 2;
        assert (u0 + r)[k] == u0[k];
      } else {
        assert i == n && r == PriceUpdate(row, recs[n].shiny, respond(row)) && r != [];
        assert (u0 + r)[|u0|] == r[0];
      }
    }
  }

  /** Every pause main takes lasts 5 seconds. */
  lemma {:induction false} RefreshPauses(recs: seq<Record>, respond: int -> Response, e: Refresh)
    requires e == RefreshEffect(recs, respond)
    ensures forall k :: 0 <= k < |e.pauses| ==> e.pauses[k] == RowPause
  {
    if recs != [] {
      var n := |recs| - 1;
      var e0 := RefreshEffect(recs[..n], respond);
      RefreshPauses(recs[..n], respond, e0);
      var r := RowRefresh(recs[n], RowNumber(n), respond(RowNumber(n)));
      assert e.pauses == e0.pauses + r.pauses;
    }
  }

  /** Every log line and every request belongs to a record with a truthy
      Unique Identifier, the log line says how that record's call ended, and
      the k-th request is for the card of the k-th logged row. */
  lemma {:induction false} RefreshReportsSound(recs: seq<Record>, respond: int -> Response, e: Refresh)
    requires e == RefreshEffect(recs, respond)
    ensures forall k :: 0 <= k < |e.reports| ==>
              var row := e.reports[k].row;
              && 2 <= row < |recs| + 2
              && Truthy(recs[row - 2].uniqueIdentifier)
              && k < |e.requested| && e.requested[k] == CardUrl(recs[row - 2].uniqueIdentifier)
              && e.reports[k] == ReportFor(row, Returned(recs[row - 2].shiny, respond(row)))
  {
    if recs != [] {
      var n := |recs| - 1;
      var pre := recs[..n];
      var e0 := RefreshEffect(pre, respond);
      RefreshReportsSound(pre, respond, e0);
      var r := RowRefresh(recs[n], RowNumber(n), respond(RowNumber(n)));
      assert e.reports == e0.reports + r.reports;
      assert e.requested == e0.requested + r.requested;
      assert pre == recs[..n];
      ReportsSoundStep(recs, respond, n, e0.reports, e0.requested, r.reports, r.requested);
    }
  }

  /** The log lines and requests of a stretch of records, each belonging to
      a record with a truthy Unique Identifier, as RefreshReportsSound
      states. */
  ghost predicate ReportsSoundFor(recs: seq<Record>, respond: int -> Response, reports: seq<Report>, requested: seq<string>) {
    forall k :: 0 <= k < |reports| ==>
      var row := reports[k].row;
      && 2 <= row < |recs| + 2
      && Truthy(recs[row - 2].uniqueIdentifier)
      && k < |requested| && requested[k] == CardUrl(recs[row - 2].uniqueIdentifier)
      && reports[k] == ReportFor(row, Returned(recs[row - 2].shiny, respond(row)))
  }

  /** The inductive step of RefreshReportsSound: the first n records' log
      lines and requests, followed by those of record n, if any. */
  lemma {:induction false} ReportsSoundStep(recs: seq<Record>, respond: int -> Response, n: int,
                                            rep0: seq<Report>, req0: seq<string>, rep1: seq<Report>, req1: seq<string>)
    requires 0 <= n < |recs| && ReportsSoundFor(recs[..n], respond, rep0, req0) && |rep0| == |req0|
    requires rep1 == [] || (&& Truthy(recs[n].uniqueIdentifier)
                            && rep1 == [ReportFor(n + 2, Returned(recs[n].shiny, respond(n + 2)))]
                            && req1 == [CardUrl(recs[n].uniqueIdentifier)])
    ensures ReportsSoundFor(recs, respond, rep0 + rep1, req0 + req1)
  {
    var pre := recs[..n];
    forall k | 0 <= k < |rep0 + rep1|
      ensures var row := (rep0 + rep1)[k].row;
              && 2 <= row < |recs| + 2
              && Truthy(recs[row - 2].uniqueIdentifier)
              && k < |req0 + req1| && (req0 + req1)[k] == CardUrl(recs[row - 2].uniqueIdentifier)
              && (rep0 + rep1)[k] == ReportFor(row, Returned(recs[row - 2].shiny, respond(row)))
    {
      if k < |rep0| {
        assert (rep0 + rep1)[k] == rep0[k];
        assert (req0 + req1)[k] == req0[k];
        assert pre[rep0[k].row - 2] == recs[rep0[k].row - 2];
      } else {
        assert (rep0 + rep1)[k] == rep1[0];
        assert (req0 + req1)[k] == req1[0];
      }
    }
  }

  /** Every record with a truthy Unique Identifier is fetched and logged. */
  lemma {:induction false} RefreshReportsComplete(recs: seq<Record>, respond: int -> Response, e: Refresh)
    requires e == RefreshEffect(recs, respond)
    ensures forall i :: 0 <= i < |recs| && Truthy(recs[i].uniqueIdentifier) ==>
              exists k :: 0 <= k < |e.reports| && e.reports[k].row == i + 2
  {
    if recs != [] {
      var n := |recs| - 1;
      var pre := recs[..n];
      var e0 := RefreshEffect(pre, respond);
      RefreshReportsComplete(pre, respond, e0);
      var r := RowRefresh(recs[n], RowNumber(n), respond(RowNumber(n))).reports;
      assert e.reports == e0.reports + r;
      forall i | 0 <= i < |recs| && Truthy(recs[i].uniqueIdentifier)
        ensures exists k :: 0 <= k < |e.reports| && e.reports[k].row == i + 2
      {
        if i < n {
          assert pre[i] == recs[i];
          var k :| 0 <= k < |e0.reports| && e0.reports[k].row == i + 2;
          assert e.reports[k] == e0.reports[k];
        } else {
          var k := |e0.reports|;
          assert e.reports[k] == r[0];
        }
      }
    }
  }

  /** Rows are logged in sheet order, once each, and their prices are queued
      in the same order, at most one per row. */
  lemma {:induction false} RefreshInRowOrder(recs: seq<Record>, respond: int -> Response, e: Refresh)
    requires e == RefreshEffect(recs, respond)
    ensures forall k, m :: 0 <= k < m < |e.reports| ==> e.reports[k].row < e.reports[m].row
    ensures forall k, m :: 0 <= k < m < |e.updates| ==> e.updates[k].row < e.updates[m].row
  {
    if recs != [] {
      var n := |recs| - 1;
      var pre := recs[..n];
      var e0 := RefreshEffect(pre, respond);
      RefreshInRowOrder(pre, respond, e0);
      RefreshReportsSound(pre, respond, e0);
      RefreshUpdatesSound(pre, respond, e0);
      var r := RowRefresh(recs[n], RowNumber(n), respond(RowNumber(n)));
      PriceCallOutcomes(RowNumber(n), recs[n].shiny, respond(RowNumber(n)));
      assert e.reports == e0.reports + r.reports;
      assert e.updates == e0.updates + r.updates;
      forall k, m | 0 <= k < m < |e.reports| ensures e.reports[k].row < e.reports[m].row {
        assert e.reports[k] == e0.reports[k];
        if m < |e0.reports| {
          assert e.reports[m] == e0.reports[m];
        } else {
          assert e.reports[m] == r.reports[0];
        }
      }
      forall k, m | 0 <= k < m < |e.updates| ensures e.updates[k].row < e.updates[m].row {
        assert e.updates[k] == e0.updates[k];
        if m < |e0.updates| {
          assert e.updates[m] == e0.updates[m];
        } else {
          assert e.updates[m] == r.updates[0];
        }
      }
    }
  }

  /** The Holofoil discrepancy over a whole run: a record with a truthy
      Unique Identifier, Shiny "Holofoil" and a reply holding a card gets
      that card's Holofoil market price queued for its row, yet its only log
      line says that no price was found. */
  lemma {:induction false} HolofoilPriceQueuedButNotReported(recs: seq<Record>, respond: int -> Response, e: Refresh, i: int)
    requires e == RefreshEffect(recs, respond)
    requires 0 <= i < |recs| && Truthy(recs[i].uniqueIdentifier) && recs[i].shiny == Str("Holofoil")
    requires ReplyCard(respond(i + 2)).Some?
    ensures exists k :: 0 <= k < |e.updates| && e.updates[k] == Update(i + 2, PriceColumn, MarketPrice(ReplyCard(respond(i + 2)).value, Holofoil))
    ensures NoPrice(i + 2) in e.reports && Added(i + 2) !in e.reports
  {
    RefreshUpdatesComplete(recs, respond, e);
    RefreshUpdatesSound(recs, respond, e);
    RefreshReportsComplete(recs, respond, e);
    RefreshReportsSound(recs, respond, e);
    HolofoilRow(recs, respond, e, i);
  }

  /** HolofoilPriceQueuedButNotReported, from what the soundness and
      completeness lemmas say about the run. */
  lemma HolofoilRow(recs: seq<Record>, respond: int -> Response, e: Refresh, i: int)
    requires 0 <= i < |recs| && Truthy(recs[i].uniqueIdentifier) && recs[i].shiny == Str("Holofoil")
    requires ReplyCard(respond(i + 2)).Some?
    requires forall k :: 0 <= k < |e.updates| ==>
               var row := e.updates[k].row;
               && 2 <= row < |recs| + 2
               && e.updates[k].col == PriceColumn
               && VariantOf(recs[row - 2].shiny).Some?
               && ReplyCard(respond(row)).Some?
               && e.updates[k].value == MarketPrice(ReplyCard(respond(row)).value, VariantOf(recs[row - 2].shiny).value)
    requires forall j :: 0 <= j < |recs| && Truthy(recs[j].uniqueIdentifier) && VariantOf(recs[j].shiny).Some?
                         && ReplyCard(respond(j + 2)).Some? ==>
               exists k :: 0 <= k < |e.updates| && e.updates[k].row == j + 2
    requires forall k :: 0 <= k < |e.reports| ==>
               var row := e.reports[k].row;
               2 <= row < |recs| + 2 && e.reports[k] == ReportFor(row, Returned(recs[row - 2].shiny, respond(row)))
    requires forall j :: 0 <= j < |recs| && Truthy(recs[j].uniqueIdentifier) ==>
               exists k :: 0 <= k < |e.reports| && e.reports[k].row == j + 2
    ensures exists k :: 0 <= k < |e.updates| && e.updates[k] == Update(i + 2, PriceColumn, MarketPrice(ReplyCard(respond(i + 2)).value, Holofoil))
    ensures NoPrice(i + 2) in e.reports && Added(i + 2) !in e.reports
  {
    var card := ReplyCard(respond(i + 2)).value;
    assert VariantOf(recs[i].shiny) == Some(Holofoil);
    var k :| 0 <= k < |e.updates| && e.updates[k].row == i + 2;
    assert e.updates[k] == Update(i + 2, PriceColumn, MarketPrice(card, Holofoil));
    assert Returned(recs[i].shiny, respond(i + 2)) == ReturnedNone;
    var m :| 0 <= m < |e.reports| && e.reports[m].row == i + 2;
    assert e.reports[m] == NoPrice(i + 2);
    forall k | 0 <= k < |e.reports| ensures e.reports[k] != Added(i + 2) {
      if e.reports[k].row == i + 2 {
        assert e.reports[k] == NoPrice(i + 2);
      }
    }
  }

  /** The batch main writes touches only Price cells: entry k sets the A1
      cell of the k-th queued row in column 10 to the queued price. */
  lemma RefreshBatchWritesPrices(recs: seq<Record>, respond: int -> Response, a1: (int, int) -> string, e: Refresh)
    requires e == RefreshEffect(recs, respond)
    ensures var b := BatchUpdates(e.updates, a1);
            forall k :: 0 <= k < |b| ==> b[k] == Entry(a1(e.updates[k].row, PriceColumn), [[e.updates[k].value]])
  {
    RefreshUpdatesSound(recs, respond, e);
  }

  /** The refresh flow's module-level state: the update queue that
      fetch_card_price appends to, plus the trace main leaves behind (the
      URLs requested, its log lines and its pauses). */
  class PriceJob {
    var updates: seq<Update>
    var requested: seq<string>
    var reports: seq<Report>
    var pauses: seq<int>

    constructor ()
      ensures updates == [] && requested == [] && reports == [] && pauses == []
    {
      updates, requested, reports, pauses := [], [], [], [];
    }

    /** fetch_card_price, its request being answered by `response`. */
    method FetchCardPrice(uniqueIdentifier: Value, row: int, shiny: Value, response: Response)
      returns (call: Call)
      modifies this`updates, this`requested
      ensures requested == old(requested) + [CardUrl(uniqueIdentifier)]
      ensures updates == old(updates) + PriceUpdate(row, shiny, response)
      ensures call == Returned(shiny, response)
    {
      requested := requested + [CardUrl(uniqueIdentifier)];
      if response.ConnectionFailed? {
        return Raised;
      }
      if response.status == 200 {
        if response.body.Unparsable? {
          return Raised;
        }
        var data := response.body.data;
        if data.Some? && !IsEmptyObject(data.value) {
          if shiny == Str("Normal") {
            updates := updates + [Update(row, PriceColumn, MarketPrice(data.value, Normal))];
            return ReturnedTuple;
          } else if shiny == Str("Reverse Holofoil") {
            updates := updates + [Update(row, PriceColumn, MarketPrice(data.value, ReverseHolofoil))];
            return ReturnedTuple;
          } else if shiny == Str("Holofoil") {
            updates := updates + [Update(row, PriceColumn, MarketPrice(data.value, Holofoil))];
            return ReturnedNone;
          }
        }
      }
      return ReturnedNone;
    }

    /** The body of main's loop for one record. */
    method RefreshRow(rec: Record, row: int, response: Response)
      modifies this
      ensures var r := RowRefresh(rec, row, response);
              && requested == old(requested) + r.requested
              && updates == old(updates) + r.updates
              && reports == old(reports) + r.reports
              && pauses == old(pauses) + r.pauses
    {
      if Truthy(rec.uniqueIdentifier) {
        var call := FetchCardPrice(rec.uniqueIdentifier, row, rec.shiny, response);
        match call {
          case ReturnedTuple => reports := reports + [Added(row)];
          case ReturnedNone => reports := reports + [NoPrice(row)];
          case Raised => reports := reports + [Failed(row)];
        }
        pauses := pauses + [RowPause];
      }
    }

    /** main, the request for sheet row `row` being answered by
        `respond(row)`. */
    method RefreshPrices(records: seq<Record>, respond: int -> Response)
      modifies this
      ensures var e := RefreshEffect(records, respond);
              && requested == old(requested) + e.requested
              && updates == old(updates) + e.updates
              && reports == old(reports) + e.reports
              && pauses == old(pauses) + e.pauses
    {
      for i := 0 to |records|
        invariant var e := RefreshEffect(records[..i], respond);
                  && requested == old(requested) + e.requested
                  && updates == old(updates) + e.updates
                  && reports == old(reports) + e.reports
                  && pauses == old(pauses) + e.pauses
      {
        ghost var before := RefreshEffect(records[..i], respond);
        ghost var here := RowRefresh(records[i], RowNumber(i), respond(RowNumber(i)));
        RefreshEffectStep(records, i, respond);
        RefreshRow(records[i], RowNumber(i), respond(RowNumber(i)));
        Associative(old(requested), before.requested, here.requested);
        Associative(old(updates), before.updates, here.updates);
        Associative(old(reports), before.reports, here.reports);
        Associative(old(pauses), before.pauses, here.pauses);
      }
      assert records[..|records|] == records;
    }
  }
}
