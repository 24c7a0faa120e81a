/** The dashboard page (src/app/page.tsx): the list of monitored sites, how
    adding, removing and completed checks change it, and the 30-second tick
    that checks every site. Each completed check is one atomic update of the
    list; the random id and the locale-formatted clock reading are inputs. */
module HomePage {
  import opened Types
  import AddSiteDialog
  import CheckStatusRoute

  /** How one `checkStatus` call ended: the endpoint's JSON arrived and its
      `status` and `latency` fields are written to the record, or the request
      or the JSON parsing threw. */
  datatype CheckOutcome = Answered(status: Status, latency: Option<int>) | Failed

  /** The record `handleAddSite` creates for a new URL. */
  function Placeholder(id: string, url: string): (w: Website)
    ensures w.id == id && w.url == url
    ensures w.status == Checking && w.latency.None? && w.lastChecked.None?
  {
    Website(id, url, Checking, None, None, None)
  }

  /** The record after a completed check: status and latency from the answer,
      or Down with no latency when the check threw; stamped with `now`; every
      other field kept. */
  function Refreshed(site: Website, outcome: CheckOutcome, now: string): (r: Website)
    ensures r.id == site.id && r.url == site.url && r.interval == site.interval
    ensures r.lastChecked == Some(now)
    ensures outcome.Answered? ==> r.status == outcome.status && r.latency == outcome.latency
    ensures outcome.Failed? ==> r.status == Down && r.latency == None
  {
    match outcome
    case Answered(status, latency) => site.(status := status, latency := latency, lastChecked := Some(now))
    case Failed => site.(status := Down, latency := None, lastChecked := Some(now))
  }

  /** The `map` both branches of `checkStatus` run over the current list:
      exactly the records with the checked id are refreshed, the others are
      kept, and length and order do not change. */
  function ApplyOutcome(sites: seq<Website>, id: string, outcome: CheckOutcome, now: string): (r: seq<Website>)
    ensures |r| == |sites|
    ensures forall i :: 0 <= i < |sites| && sites[i].id == id ==> r[i] == Refreshed(sites[i], outcome, now)
    ensures forall i :: 0 <= i < |sites| && sites[i].id != id ==> r[i] == sites[i]
  {
    if sites == [] then []
    else
      var head := if sites[0].id == id then Refreshed(sites[0], outcome, now) else sites[0];
      [head] + ApplyOutcome(sites[1..], id, outcome, now)
  }

  /** The `filter` of `handleRemoveSite`: drops every record with the id. */
  function WithoutId(sites: seq<Website>, id: string): (r: seq<Website>)
    ensures |r| <= |sites|
    ensures forall w :: w in r <==> w in sites && w.id != id
  {
    if sites == [] then []
    else if sites[0].id == id then WithoutId(sites[1..], id)
    else [sites[0]] + WithoutId(sites[1..], id)
  }

  /** No record in the list carries the id. */
  predicate Absent(sites: seq<Website>, id: string) {
    forall i :: 0 <= i < |sites| ==> sites[i].id != id
  }

  /** No two records in the list share an id. */
  predicate DistinctIds(sites: seq<Website>) {
    forall i, j :: 0 <= i < j < |sites| ==> sites[i].id != sites[j].id
  }

  /** A result for an id that is not in the list changes nothing. */
  lemma LateResultIsNoOp(sites: seq<Website>, id: string, outcome: CheckOutcome, now: string)
    requires Absent(sites, id)
    ensures ApplyOutcome(sites, id, outcome, now) == sites
  {
  }

  /** Removing an id that is not in the list changes nothing. */
  lemma {:induction false} RemoveAbsentIsNoOp(sites: seq<Website>, id: string)
    requires Absent(sites, id)
    ensures WithoutId(sites, id) == sites
  {
    if sites != [] {
      RemoveAbsentIsNoOp(sites[1..], id);
    }
  }

  /** Removal keeps the remaining records in their relative order: removing
      from a concatenation is removing from each part. */
  lemma {:induction false} WithoutIdAppend(a: seq<Website>, b: seq<Website>, id: string)
    ensures WithoutId(a + b, id) == WithoutId(a, id) + WithoutId(b, id)
  {
    if a == [] {
      assert a + b == b;
    } else {
      assert (a + b)[1..] == a[1..] + b;
      WithoutIdAppend(a[1..], b, id);
    }
  }

  /** After a removal no record carries the id. */
  lemma RemovedIdIsAbsent(sites: seq<Website>, id: string)
    ensures Absent(WithoutId(sites, id), id)
  {
    var r := WithoutId(sites, id);
    forall i | 0 <= i < |r|
      ensures r[i].id != id
    {
      assert r[i] in r;
    }
  }

  /** A check that completes after its site was removed is a no-op. */
  lemma ResultAfterRemovalIsNoOp(sites: seq<Website>, id: string, outcome: CheckOutcome, now: string)
    ensures ApplyOutcome(WithoutId(sites, id), id, outcome, now) == WithoutId(sites, id)
  {
    RemovedIdIsAbsent(sites, id);
    LateResultIsNoOp(WithoutId(sites, id), id, outcome, now);
  }

  /** Removing a site just added under a fresh id restores the list. */
  lemma RemoveUndoesAdd(sites: seq<Website>, id: string, url: string)
    requires Absent(sites, id)
    ensures WithoutId(sites + [Placeholder(id, url)], id) == sites
  {
    WithoutIdAppend(sites, [Placeholder(id, url)], id);
    RemoveAbsentIsNoOp(sites, id);
  }

  /** Adding under a fresh id, removing, and completing checks keep the ids distinct. */
  lemma OperationsKeepIdsDistinct(sites: seq<Website>, id: string, url: string, other: string, outcome: CheckOutcome, now: string)
    requires DistinctIds(sites)
    ensures Absent(sites, id) ==> DistinctIds(sites + [Placeholder(id, url)])
    ensures DistinctIds(WithoutId(sites, other))
    ensures DistinctIds(ApplyOutcome(sites, other, outcome, now))
  {
    WithoutIdKeepsDistinct(sites, other);
  }

  /** Removal never makes two records share an id. */
  lemma {:induction false} WithoutIdKeepsDistinct(sites: seq<Website>, id: string)
    requires DistinctIds(sites)
    ensures DistinctIds(WithoutId(sites, id))
  {
    if sites != [] {
      WithoutIdKeepsDistinct(sites[1..], id);
      var rest := WithoutId(sites[1..], id);
      if sites[0].id != id {
        forall j | 0 <= j < |rest|
          ensures sites[0].id != rest[j].id
        {
          assert rest[j] in rest;
        }
      }
    }
  }

  /** One check completion, as it reaches the list. */
  datatype Completion = Completion(id: string, outcome: CheckOutcome, now: string)

  /** The list after a series of completions, applied in the order they arrive. */
  function ApplyCompletions(sites: seq<Website>, cs: seq<Completion>): (r: seq<Website>)
    ensures |r| == |sites|
    ensures forall i :: 0 <= i < |sites| ==> r[i].id == sites[i].id && r[i].url == sites[i].url
    decreases |cs|
  {
    if cs == [] then sites
    else ApplyCompletions(ApplyOutcome(sites, cs[0].id, cs[0].outcome, cs[0].now), cs[1..])
  }

  /** The answer does not leave the record in the placeholder status. */
  predicate Settles(outcome: CheckOutcome) {
    outcome.Answered? ==> outcome.status != Checking
  }

  /** The ids of a series of completions. */
  function CompletedIds(cs: seq<Completion>): set<string> {
    set i | 0 <= i < |cs| :: cs[i].id
  }

  /** A record that is still Checking ends up settled once some completion for
      its id arrives, whatever the order of the completions. */
  lemma {:induction false} CompletionsSettle(sites: seq<Website>, cs: seq<Completion>)
    requires forall i :: 0 <= i < |cs| ==> Settles(cs[i].outcome)
    requires forall i :: 0 <= i < |sites| ==> sites[i].status != Checking || sites[i].id in CompletedIds(cs)
    ensures forall w :: w in ApplyCompletions(sites, cs) ==> w.status != Checking
    decreases |cs|
  {
    if cs == [] {
      forall w | w in sites
        ensures w.status != Checking
      {
        var i :| 0 <= i < |sites| && sites[i] == w;
      }
    } else {
      var c := cs[0];
      var next := ApplyOutcome(sites, c.id, c.outcome, c.now);
      forall i | 0 <= i < |next|
        ensures next[i].status != Checking || next[i].id in CompletedIds(cs[1..])
      {
        if sites[i].id != c.id && sites[i].status == Checking {
          var k :| 0 <= k < |cs| && cs[k].id == sites[i].id;
          assert cs[1..][k - 1].id == sites[i].id;
        }
      }
      forall i | 0 <= i < |cs[1..]|
        ensures Settles(cs[1..][i].outcome)
      {
        assert cs[1..][i] == cs[i + 1];
      }
      CompletionsSettle(next, cs[1..]);
    }
  }

  /** After a tick, once the check of every dispatched record has completed
      with a Down, an Up or a thrown request, no record is left Checking. */
  lemma TickRoundSettles(sites: seq<Website>, cs: seq<Completion>)
    requires |cs| == |sites|
    requires forall i :: 0 <= i < |cs| ==> cs[i].id == sites[i].id && Settles(cs[i].outcome)
    ensures forall w :: w in ApplyCompletions(sites, cs) ==> w.status != Checking
  {
    CompletionsSettle(sites, cs);
  }

  /** A URL that went through the add dialog is always probed: the endpoint
      never answers it with the 400 error, and probes that very URL. */
  lemma AddedUrlIsProbed(entered: string, headers: CheckStatusRoute.EdgeHeaders,
                         fetch: CheckStatusRoute.FetchResult, startTime: int, endTime: int)
    ensures var h := CheckStatusRoute.Handle(CheckStatusRoute.Parsed(Some(AddSiteDialog.NormaliseUrl(entered))),
                                             headers, fetch, startTime, endTime);
            h.reply.Checked? && h.probed == Some(AddSiteDialog.NormaliseUrl(entered))
  {
  }

  /** The `Home` component's `websites` state cell and the handlers that replace it. */
  class Home {
    var websites: seq<Website>

    constructor ()
      ensures websites == []
    {
      websites := [];
    }

    /** `handleAddSite`: appends a placeholder for `url` under the fresh `id`
        and dispatches exactly one check, of that record. */
    method AddSite(id: string, url: string) returns (dispatched: seq<Website>)
      modifies this
      ensures websites == old(websites) + [Placeholder(id, url)]
      ensures dispatched == [Placeholder(id, url)]
    {
      var site := Placeholder(id, url);
      websites := websites + [site];
      dispatched := [site];
    }

    /** `handleRemoveSite`: removes every record with the id. */
    method RemoveSite(id: string)
      modifies this
      ensures websites == WithoutId(old(websites), id)
    {
      websites := WithoutId(websites, id);
    }

    /** The update at the end of `checkStatus(checked)`, on either branch. */
    method CompleteCheck(checked: Website, outcome: CheckOutcome, now: string)
      modifies this
      ensures websites == ApplyOutcome(old(websites), checked.id, outcome, now)
    {
      websites := ApplyOutcome(websites, checked.id, outcome, now);
    }

    /** The 30-second tick: `websites.forEach(checkStatus)` dispatches one
        check per record currently in the list, in list order. */
    method Tick() returns (dispatched: seq<Website>)
      ensures dispatched == websites
    {
      dispatched := [];
      var i := 0;
      while i < |websites|
        invariant 0 <= i <= |websites|
        invariant dispatched == websites[..i]
      {
        dispatched := dispatched + [websites[i]];
        i := i + 1;
      }
    }
  }
}
