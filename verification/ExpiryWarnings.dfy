/** Pre-expiry warnings (app/scripts/send_expiry_warnings.py): at most one per license and threshold,
    recorded as events. Times are seconds; days left are compared exactly. */
module ExpiryWarnings {
  import opened Common

  const DAY := 86400

  /** The columns of a license row that the script reads. */
  datatype Term = Term(id: nat, active: bool, validUntil: int)

  /** An `expiry_warning:<threshold>` event. */
  datatype Warning = Warning(license: nat, threshold: int)

  predicate Ascending(thresholds: seq<int>) {
    forall i, j :: 0 <= i < j < |thresholds| ==> thresholds[i] < thresholds[j]
  }

  /** The days left are at most the threshold, for the time left in seconds. */
  predicate Within(left: int, threshold: int) {
    left <= threshold * DAY
  }

  /** `_pick_threshold` on the sorted thresholds: the first the time left falls within. */
  function PickThreshold(left: int, thresholds: seq<int>): Option<int> {
    if thresholds == [] then None
    else if Within(left, thresholds[0]) then Some(thresholds[0])
    else PickThreshold(left, thresholds[1..])
  }

  predicate InWindow(l: Term, now: int, thresholds: seq<int>)
    requires thresholds != []
  {
    l.active && now < l.validUntil <= now + thresholds[|thresholds| - 1] * DAY
  }

  /** The threshold a pass at `now` would warn this license at, if any. */
  function Due(l: Term, now: int, thresholds: seq<int>, recorded: seq<Warning>): Option<int>
    requires thresholds != []
  {
    if !InWindow(l, now, thresholds) then None
    else
      var t := PickThreshold(l.validUntil - now, thresholds);
      if t.None? || Warning(l.id, t.value) in recorded then None else t
  }

  /** The events after one license of a pass; `sent` says whether its email went out. */
  function Warned(l: Term, now: int, thresholds: seq<int>, recorded: seq<Warning>, sent: bool): seq<Warning>
    requires thresholds != []
  {
    var t := Due(l, now, thresholds, recorded);
    if t.Some? && sent then recorded + [Warning(l.id, t.value)] else recorded
  }

  /** How one visit goes: the email goes out, it does not, or a statement before the commit raises. */
  datatype Outcome = Sent | NotSent | Raised

  /** The events after a pass, which an exception ends. */
  function WarnedAll(ls: seq<Term>, now: int, thresholds: seq<int>, recorded: seq<Warning>, outcomes: seq<Outcome>)
    : seq<Warning>
    requires thresholds != [] && |outcomes| == |ls|
  {
    if ls == [] || outcomes[0].Raised? then recorded
    else WarnedAll(ls[1..], now, thresholds, Warned(ls[0], now, thresholds, recorded, outcomes[0].Sent?), outcomes[1..])
  }

  /** One pass: the rows it reads, its clock, whether the email key is set, and how each visit goes. */
  datatype Pass = Pass(ls: seq<Term>, now: int, configured: bool, dryRun: bool, outcomes: seq<Outcome>)

  /** The events after the pass; only a configured pass that is no dry run sends. */
  function AfterPass(p: Pass, thresholds: seq<int>, recorded: seq<Warning>): seq<Warning>
    requires thresholds != [] && |p.outcomes| == |p.ls|
  {
    if p.configured && !p.dryRun then WarnedAll(p.ls, p.now, thresholds, recorded, p.outcomes) else recorded
  }

  class EventLog {
    var recorded: seq<Warning>

    constructor ()
      ensures recorded == []
    {
      recorded := [];
    }

    /** `run`: nothing without an email key, no send and no record in a dry run, else each record is committed
        after its send; `count` is the number the last log line reports. */
    method Run(ls: seq<Term>, now: int, thresholds: seq<int>, configured: bool, dryRun: bool, outcomes: seq<Outcome>)
      returns (code: int, count: nat)
      requires thresholds != [] && |outcomes| == |ls|
      modifies this
      ensures recorded == AfterPass(Pass(ls, now, configured, dryRun, outcomes), thresholds, old(recorded))
      ensures code == if configured && Raised in outcomes then 1 else 0
      ensures code == 0 ==> count == |recorded| - |old(recorded)|
    {
      code, count := 0, 0;
      if !configured {
        return;
      }
      var i := 0;
      while i < |ls|
        invariant 0 <= i <= |ls| && count == |recorded| - |old(recorded)| && Raised !in outcomes[..i]
        invariant dryRun ==> recorded == old(recorded)
        invariant !dryRun ==> WarnedAll(ls[i..], now, thresholds, recorded, outcomes[i..]) ==
                              WarnedAll(ls, now, thresholds, old(recorded), outcomes)
      {
        if outcomes[i].Raised? {
          return 1, 0;
        }
        var l := ls[i];
        assert ls[i..][1..] == ls[i + 1..] && outcomes[i..][1..] == outcomes[i + 1..];
        if InWindow(l, now, thresholds) {
          var t := PickThreshold(l.validUntil - now, thresholds);
          if t.Some? && Warning(l.id, t.value) !in recorded && !dryRun {
            if outcomes[i].Sent? {
              recorded := recorded + [Warning(l.id, t.value)];
              count := count + 1;
            }
          }
        }
        i := i + 1;
      }
    }
  }

  // ----- the choice ------------------------------------------------------------------------------------

  /** The chosen threshold is the least one not below the days left; a license in the window has one. */
  lemma {:induction false} PicksLeast(left: int, thresholds: seq<int>)
    requires Ascending(thresholds)
    ensures var t := PickThreshold(left, thresholds);
            && (t.None? <==> forall i :: 0 <= i < |thresholds| ==> !Within(left, thresholds[i]))
            && (t.Some? ==> t.value in thresholds && Within(left, t.value) &&
                            forall i :: 0 <= i < |thresholds| && Within(left, thresholds[i]) ==>
                                t.value <= thresholds[i])
    decreases |thresholds|
  {
    if thresholds != [] {
      PicksLeast(left, thresholds[1..]);
      assert forall i :: 1 <= i < |thresholds| ==> thresholds[i] == thresholds[1..][i - 1];
    }
  }

  lemma {:induction false} PickedIsListed(left: int, thresholds: seq<int>) returns (i: nat)
    requires PickThreshold(left, thresholds).Some?
    ensures i < |thresholds| && thresholds[i] == PickThreshold(left, thresholds).value
    decreases |thresholds|
  {
    if Within(left, thresholds[0]) {
      i := 0;
    } else {
      var j := PickedIsListed(left, thresholds[1..]);
      i := j + 1;
    }
  }

  lemma {:induction false} LessTimeLowerThreshold(left: int, later: int, thresholds: seq<int>)
    requires Ascending(thresholds) && later <= left
    requires PickThreshold(left, thresholds).Some? && PickThreshold(later, thresholds).Some?
    ensures PickThreshold(later, thresholds).value <= PickThreshold(left, thresholds).value
  {
    PicksLeast(left, thresholds);
    PicksLeast(later, thresholds);
  }

  /** A license is warned exactly when it is active, its date has not passed, some threshold is not below the days
      left, and the least such one has no record; the warning names that one. */
  lemma {:induction false} DueIff(l: Term, now: int, thresholds: seq<int>, recorded: seq<Warning>, t: int)
    requires thresholds != [] && Ascending(thresholds)
    ensures Due(l, now, thresholds, recorded) == Some(t) <==>
            && l.active && now < l.validUntil && Warning(l.id, t) !in recorded
            && t in thresholds && l.validUntil - now <= t * 86400
            && forall i :: 0 <= i < |thresholds| && l.validUntil - now <= thresholds[i] * 86400 ==> t <= thresholds[i]
  {
    PicksLeast(l.validUntil - now, thresholds);
    var last := thresholds[|thresholds| - 1];
    assert forall i :: 0 <= i < |thresholds| ==> thresholds[i] <= last;
  }

  // ----- runs ------------------------------------------------------------------------------------------

  /** What one pass sees of one license: its row, the clock, and whether the email would go out. */
  datatype Visit = Visit(term: Term, now: int, sent: bool)

  /** The records after a sequence of visits, of any licenses, over any number of passes. */
  function Log(vs: seq<Visit>, thresholds: seq<int>): seq<Warning>
    requires thresholds != []
    decreases |vs|
  {
    if vs == [] then []
    else
      var v := vs[|vs| - 1];
      Warned(v.term, v.now, thresholds, Log(vs[..|vs| - 1], thresholds), v.sent)
  }

  /** The thresholds recorded for a license, in order. */
  function ThresholdsOf(log: seq<Warning>, id: nat): seq<int> {
    if log == [] then []
    else
      ThresholdsOf(log[..|log| - 1], id) + if log[|log| - 1].license == id then [log[|log| - 1].threshold] else []
  }

  /** Visits of the license see one expiry date and a clock that does not go back. */
  predicate SteadyVisits(vs: seq<Visit>, id: nat, validUntil: int) {
    && (forall i :: 0 <= i < |vs| && vs[i].term.id == id ==> vs[i].term.validUntil == validUntil)
    && (forall i, j :: 0 <= i < j < |vs| ==> vs[i].now <= vs[j].now)
  }

  predicate StrictlyDecreasing(s: seq<int>) {
    forall i, j :: 0 <= i < j < |s| ==> s[i] > s[j]
  }

  lemma {:induction false} RecordedMember(log: seq<Warning>, id: nat, t: int)
    ensures t in ThresholdsOf(log, id) <==> Warning(id, t) in log
    decreases |log|
  {
    if log != [] {
      RecordedMember(log[..|log| - 1], id, t);
      assert log == log[..|log| - 1] + [log[|log| - 1]];
    }
  }

  /** Every recorded threshold was picked for some earlier visit's time left. */
  lemma {:induction false} RecordsWerePicked(vs: seq<Visit>, thresholds: seq<int>, id: nat, validUntil: int, now: int)
    requires thresholds != [] && Ascending(thresholds) && SteadyVisits(vs, id, validUntil)
    requires forall i :: 0 <= i < |vs| ==> vs[i].now <= now
    requires PickThreshold(validUntil - now, thresholds).Some?
    ensures NoneBelow(ThresholdsOf(Log(vs, thresholds), id), PickThreshold(validUntil - now, thresholds).value)
    decreases |vs|
  {
    if vs != [] {
      var before, v := vs[..|vs| - 1], vs[|vs| - 1];
      RecordsWerePicked(before, thresholds, id, validUntil, now);
      var log := Log(vs, thresholds);
      if log != Log(before, thresholds) {
        assert log[..|log| - 1] == Log(before, thresholds);
        if v.term.id == id {
          LessTimeLowerThreshold(validUntil - v.now, validUntil - now, thresholds);
        }
      }
    }
  }

  /** A visit either leaves a license's thresholds alone or appends the one it picked, not recorded before. */
  lemma {:induction false} VisitAppends(log: seq<Warning>, thresholds: seq<int>, v: Visit, id: nat)
    requires thresholds != []
    ensures var after := ThresholdsOf(Warned(v.term, v.now, thresholds, log, v.sent), id);
            || after == ThresholdsOf(log, id)
            || (v.term.id == id && PickThreshold(v.term.validUntil - v.now, thresholds).Some? &&
                var t := PickThreshold(v.term.validUntil - v.now, thresholds).value;
                t !in ThresholdsOf(log, id) && after == ThresholdsOf(log, id) + [t])
  {
    var t := Due(v.term, v.now, thresholds, log);
    if t.Some? && v.sent {
      RecordedMember(log, v.term.id, t.value);
      var added := log + [Warning(v.term.id, t.value)];
      assert added[..|added| - 1] == log;
    }
  }

  predicate NoneBelow(s: seq<int>, t: int) {
    forall i :: 0 <= i < |s| ==> s[i] >= t
  }

  lemma {:induction false} VisitKeepsDecreasing(log: seq<Warning>, thresholds: seq<int>, v: Visit, id: nat)
    requires thresholds != [] && StrictlyDecreasing(ThresholdsOf(log, id))
    requires var t := PickThreshold(v.term.validUntil - v.now, thresholds);
             v.term.id == id && t.Some? ==> NoneBelow(ThresholdsOf(log, id), t.value)
    ensures StrictlyDecreasing(ThresholdsOf(Warned(v.term, v.now, thresholds, log, v.sent), id))
  {
    VisitAppends(log, thresholds, v, id);
    var t := PickThreshold(v.term.validUntil - v.now, thresholds);
    if v.term.id == id && t.Some? && t.value !in ThresholdsOf(log, id) {
      AppendKeepsDecreasing(ThresholdsOf(log, id), t.value);
    }
  }

  /** For a license whose expiry date does not change, the recorded thresholds strictly decrease over all
      passes: the customer is never warned twice at one threshold, nor at a wider one later. */
  lemma {:induction false} LogDecreases(vs: seq<Visit>, thresholds: seq<int>, id: nat, validUntil: int)
    requires thresholds != [] && Ascending(thresholds) && SteadyVisits(vs, id, validUntil)
    ensures StrictlyDecreasing(ThresholdsOf(Log(vs, thresholds), id))
    decreases |vs|
  {
    if vs != [] {
      var before, v := vs[..|vs| - 1], vs[|vs| - 1];
      LogDecreases(before, thresholds, id, validUntil);
      if v.term.id == id && PickThreshold(validUntil - v.now, thresholds).Some? {
        RecordsWerePicked(before, thresholds, id, validUntil, v.now);
      }
      VisitKeepsDecreasing(Log(before, thresholds), thresholds, v, id);
    }
  }

  lemma AppendKeepsDecreasing(s: seq<int>, t: int)
    requires StrictlyDecreasing(s) && t !in s && NoneBelow(s, t)
    ensures StrictlyDecreasing(s + [t])
  {
    assert forall i :: 0 <= i < |s| ==> s[i] in s;
  }

  /** Even when renewals move the expiry date, a license is warned at most once per threshold in its life. */
  lemma {:induction false} LogIsDistinct(vs: seq<Visit>, thresholds: seq<int>)
    requires thresholds != []
    ensures forall i, j :: 0 <= i < j < |Log(vs, thresholds)| ==> Log(vs, thresholds)[i] != Log(vs, thresholds)[j]
    decreases |vs|
  {
    if vs != [] {
      LogIsDistinct(vs[..|vs| - 1], thresholds);
    }
  }

  /** The visit's email goes out for a license in the window, and `t` is its threshold. */
  predicate Warns(v: Visit, thresholds: seq<int>, t: int)
    requires thresholds != []
  {
    v.sent && InWindow(v.term, v.now, thresholds) && PickThreshold(v.term.validUntil - v.now, thresholds) == Some(t)
  }

  /** Some visit of the license, in whichever term, went out at this threshold. */
  predicate WarnedBefore(vs: seq<Visit>, thresholds: seq<int>, id: nat, t: int)
    requires thresholds != []
  {
    exists i :: 0 <= i < |vs| && vs[i].term.id == id && Warns(vs[i], thresholds, t)
  }

  /** A threshold is recorded exactly when some visit reached it. */
  lemma {:induction false} LoggedIff(vs: seq<Visit>, thresholds: seq<int>, id: nat, t: int)
    requires thresholds != []
    ensures Warning(id, t) in Log(vs, thresholds) <==> WarnedBefore(vs, thresholds, id, t)
    decreases |vs|
  {
    if vs != [] {
      var before, v := vs[..|vs| - 1], vs[|vs| - 1];
      LoggedIff(before, thresholds, id, t);
      assert WarnedBefore(vs, thresholds, id, t) <==>
             WarnedBefore(before, thresholds, id, t) || (v.term.id == id && Warns(v, thresholds, t)) by {
        LastOrEarlier(vs, thresholds, id, t);
      }
    }
  }

  lemma LastOrEarlier(vs: seq<Visit>, thresholds: seq<int>, id: nat, t: int)
    requires thresholds != [] && vs != []
    ensures var before, v := vs[..|vs| - 1], vs[|vs| - 1];
            WarnedBefore(vs, thresholds, id, t) <==>
            WarnedBefore(before, thresholds, id, t) || (v.term.id == id && Warns(v, thresholds, t))
  {
    var before := vs[..|vs| - 1];
    assert forall i :: 0 <= i < |before| ==> before[i] == vs[i];
    if WarnedBefore(before, thresholds, id, t) {
      var i :| 0 <= i < |before| && before[i].term.id == id && Warns(before[i], thresholds, t);
      assert vs[i].term.id == id && Warns(vs[i], thresholds, t);
    }
  }

  ghost predicate Exhausted(recorded: seq<int>, thresholds: seq<int>) {
    forall i :: 0 <= i < |thresholds| ==> thresholds[i] in recorded
  }

  lemma {:induction false} SilentVisit(log: seq<Warning>, thresholds: seq<int>, v: Visit, id: nat)
    requires thresholds != [] && Exhausted(ThresholdsOf(log, id), thresholds)
    ensures ThresholdsOf(Warned(v.term, v.now, thresholds, log, v.sent), id) == ThresholdsOf(log, id)
  {
    VisitAppends(log, thresholds, v, id);
    var t := PickThreshold(v.term.validUntil - v.now, thresholds);
    if t.Some? {
      var i := PickedIsListed(v.term.validUntil - v.now, thresholds);
      assert t.value in ThresholdsOf(log, id);
    }
  }

  /** Once a license has a record at every threshold, no visit ever adds another, whatever its expiry date
      becomes. */
  lemma {:induction false} LogStaysSilent(vs: seq<Visit>, ws: seq<Visit>, thresholds: seq<int>, id: nat)
    requires thresholds != []
    requires Exhausted(ThresholdsOf(Log(vs, thresholds), id), thresholds)
    ensures ThresholdsOf(Log(vs + ws, thresholds), id) == ThresholdsOf(Log(vs, thresholds), id)
    decreases |ws|
  {
    if ws == [] {
      assert vs + ws == vs;
    } else {
      var front, v := ws[..|ws| - 1], ws[|ws| - 1];
      LogStaysSilent(vs, front, thresholds, id);
      assert (vs + ws)[..|vs + ws| - 1] == vs + front;
      SilentVisit(Log(vs + front, thresholds), thresholds, v, id);
    }
  }

  // ----- over sequences of passes -----------------------------------------------------------------------

  /** The visits of a pass, up to the first that raises. */
  function Visits(ls: seq<Term>, now: int, outcomes: seq<Outcome>): seq<Visit>
    requires |outcomes| == |ls|
  {
    if ls == [] || outcomes[0].Raised? then []
    else [Visit(ls[0], now, outcomes[0].Sent?)] + Visits(ls[1..], now, outcomes[1..])
  }

  function PassVisits(p: Pass): seq<Visit>
    requires |p.outcomes| == |p.ls|
  {
    if p.configured && !p.dryRun then Visits(p.ls, p.now, p.outcomes) else []
  }

  predicate Passes(ps: seq<Pass>) {
    forall i :: 0 <= i < |ps| ==> |ps[i].outcomes| == |ps[i].ls|
  }

  function AllVisits(ps: seq<Pass>): seq<Visit>
    requires Passes(ps)
  {
    if ps == [] then [] else AllVisits(ps[..|ps| - 1]) + PassVisits(ps[|ps| - 1])
  }

  /** The events after the passes, run one after another on an empty log. */
  function Records(ps: seq<Pass>, thresholds: seq<int>): seq<Warning>
    requires thresholds != [] && Passes(ps)
  {
    if ps == [] then [] else AfterPass(ps[|ps| - 1], thresholds, Records(ps[..|ps| - 1], thresholds))
  }

  lemma {:induction false} PassIsLog(ls: seq<Term>, now: int, thresholds: seq<int>, vs: seq<Visit>,
                                     outcomes: seq<Outcome>)
    requires thresholds != [] && |outcomes| == |ls|
    ensures WarnedAll(ls, now, thresholds, Log(vs, thresholds), outcomes) ==
            Log(vs + Visits(ls, now, outcomes), thresholds)
    decreases |ls|
  {
    if ls == [] || outcomes[0].Raised? {
      assert vs + [] == vs;
    } else {
      var v, rest := Visit(ls[0], now, outcomes[0].Sent?), Visits(ls[1..], now, outcomes[1..]);
      assert (vs + [v])[..|vs|] == vs && (vs + [v]) + rest == vs + ([v] + rest);
      PassIsLog(ls[1..], now, thresholds, vs + [v], outcomes[1..]);
    }
  }

  /** What the passes record is the log of their visits. */
  lemma {:induction false} RecordsAreLog(ps: seq<Pass>, thresholds: seq<int>)
    requires thresholds != [] && Passes(ps)
    ensures Records(ps, thresholds) == Log(AllVisits(ps), thresholds)
    decreases |ps|
  {
    if ps != [] {
      var before, p := ps[..|ps| - 1], ps[|ps| - 1];
      RecordsAreLog(before, thresholds);
      PassIsLog(p.ls, p.now, thresholds, AllVisits(before), p.outcomes);
      assert AllVisits(before) + [] == AllVisits(before);
    }
  }

  /** Every pass that reads the license sees one expiry date, and the clock does not go back. */
  predicate SteadyPasses(ps: seq<Pass>, id: nat, validUntil: int) {
    && (forall i, j :: 0 <= i < |ps| && 0 <= j < |ps[i].ls| && ps[i].ls[j].id == id ==>
          ps[i].ls[j].validUntil == validUntil)
    && (forall i, j :: 0 <= i < j < |ps| ==> ps[i].now <= ps[j].now)
  }

  lemma {:induction false} SteadyPass(ls: seq<Term>, now: int, outcomes: seq<Outcome>, id: nat, validUntil: int)
    requires |outcomes| == |ls|
    requires forall j :: 0 <= j < |ls| && ls[j].id == id ==> ls[j].validUntil == validUntil
    ensures SteadyVisits(Visits(ls, now, outcomes), id, validUntil)
    ensures forall v :: v in Visits(ls, now, outcomes) ==> v.now == now
    decreases |ls|
  {
    if ls != [] && !outcomes[0].Raised? {
      SteadyPass(ls[1..], now, outcomes[1..], id, validUntil);
    }
  }

  lemma {:induction false} SteadyAll(ps: seq<Pass>, id: nat, validUntil: int)
    requires Passes(ps) && SteadyPasses(ps, id, validUntil)
    ensures SteadyVisits(AllVisits(ps), id, validUntil)
    ensures ps != [] ==> forall v :: v in AllVisits(ps) ==> v.now <= ps[|ps| - 1].now
    decreases |ps|
  {
    if ps != [] {
      var before, p := ps[..|ps| - 1], ps[|ps| - 1];
      SteadyAll(before, id, validUntil);
      SteadyPass(p.ls, p.now, p.outcomes, id, validUntil);
      SteadyAppend(AllVisits(before), PassVisits(p), p.now, id, validUntil);
    }
  }

  lemma SteadyAppend(vs: seq<Visit>, ws: seq<Visit>, now: int, id: nat, validUntil: int)
    requires SteadyVisits(vs, id, validUntil) && SteadyVisits(ws, id, validUntil)
    requires (forall v :: v in vs ==> v.now <= now) && forall v :: v in ws ==> v.now == now
    ensures SteadyVisits(vs + ws, id, validUntil) && forall v :: v in vs + ws ==> v.now <= now
  {
    assert forall i :: 0 <= i < |vs| ==> (vs + ws)[i] in vs;
    assert forall i :: |vs| <= i < |vs + ws| ==> (vs + ws)[i] in ws;
  }

  /** For a license whose expiry date does not change, the thresholds recorded strictly decrease over all passes:
      the customer is never warned twice at one threshold, nor at a wider one later. */
  lemma {:induction false} ThresholdsDecrease(ps: seq<Pass>, thresholds: seq<int>, id: nat, validUntil: int)
    requires thresholds != [] && Ascending(thresholds) && Passes(ps) && SteadyPasses(ps, id, validUntil)
    ensures StrictlyDecreasing(ThresholdsOf(Records(ps, thresholds), id))
  {
    RecordsAreLog(ps, thresholds);
    SteadyAll(ps, id, validUntil);
    LogDecreases(AllVisits(ps), thresholds, id, validUntil);
  }

  /** Even when renewals move the expiry date, a license is warned at most once per threshold in its life. */
  lemma {:induction false} OneRecordPerThreshold(ps: seq<Pass>, thresholds: seq<int>)
    requires thresholds != [] && Passes(ps)
    ensures var log := Records(ps, thresholds); forall i, j :: 0 <= i < j < |log| ==> log[i] != log[j]
  {
    RecordsAreLog(ps, thresholds);
    LogIsDistinct(AllVisits(ps), thresholds);
  }

  /** In this pass an email goes out for the license at this threshold, unless it was recorded before. */
  predicate PassWarns(p: Pass, thresholds: seq<int>, id: nat, t: int)
    requires thresholds != [] && |p.outcomes| == |p.ls|
  {
    WarnedBefore(PassVisits(p), thresholds, id, t)
  }

  predicate SomePassWarns(ps: seq<Pass>, thresholds: seq<int>, id: nat, t: int)
    requires thresholds != [] && Passes(ps)
  {
    exists i :: 0 <= i < |ps| && PassWarns(ps[i], thresholds, id, t)
  }

  lemma WarnedAppend(vs: seq<Visit>, ws: seq<Visit>, thresholds: seq<int>, id: nat, t: int)
    requires thresholds != []
    ensures WarnedBefore(vs + ws, thresholds, id, t) <==>
            WarnedBefore(vs, thresholds, id, t) || WarnedBefore(ws, thresholds, id, t)
  {
    if WarnedBefore(vs, thresholds, id, t) {
      var i :| 0 <= i < |vs| && vs[i].term.id == id && Warns(vs[i], thresholds, t);
      assert (vs + ws)[i] == vs[i];
    }
    if WarnedBefore(ws, thresholds, id, t) {
      var i :| 0 <= i < |ws| && ws[i].term.id == id && Warns(ws[i], thresholds, t);
      assert (vs + ws)[|vs| + i] == ws[i];
    }
  }

  lemma LastPassOrEarlier(ps: seq<Pass>, p: Pass, thresholds: seq<int>, id: nat, t: int)
    requires thresholds != [] && Passes(ps + [p]) && Passes(ps) && |p.outcomes| == |p.ls|
    ensures SomePassWarns(ps + [p], thresholds, id, t) <==>
            SomePassWarns(ps, thresholds, id, t) || PassWarns(p, thresholds, id, t)
  {
    var all := ps + [p];
    assert all[|ps|] == p && forall i :: 0 <= i < |ps| ==> all[i] == ps[i];
    if SomePassWarns(ps, thresholds, id, t) {
      var i :| 0 <= i < |ps| && PassWarns(ps[i], thresholds, id, t);
      assert PassWarns(all[i], thresholds, id, t);
    }
  }

  lemma {:induction false} VisitsOfPasses(ps: seq<Pass>, thresholds: seq<int>, id: nat, t: int)
    requires thresholds != [] && Passes(ps)
    ensures WarnedBefore(AllVisits(ps), thresholds, id, t) <==> SomePassWarns(ps, thresholds, id, t)
    decreases |ps|
  {
    if ps != [] {
      var before, p := ps[..|ps| - 1], ps[|ps| - 1];
      VisitsOfPasses(before, thresholds, id, t);
      WarnedAppend(AllVisits(before), PassVisits(p), thresholds, id, t);
      assert before + [p] == ps;
      LastPassOrEarlier(before, p, thresholds, id, t);
    }
  }

  /** A threshold is recorded exactly when some pass reached it with an email that went out. */
  lemma {:induction false} RecordedIff(ps: seq<Pass>, thresholds: seq<int>, id: nat, t: int)
    requires thresholds != [] && Passes(ps)
    ensures Warning(id, t) in Records(ps, thresholds) <==> SomePassWarns(ps, thresholds, id, t)
  {
    RecordsAreLog(ps, thresholds);
    LoggedIff(AllVisits(ps), thresholds, id, t);
    VisitsOfPasses(ps, thresholds, id, t);
  }

  lemma {:induction false} WarnedAllGrows(ls: seq<Term>, now: int, thresholds: seq<int>, recorded: seq<Warning>,
                                          outcomes: seq<Outcome>)
    requires thresholds != [] && |outcomes| == |ls|
    ensures recorded <= WarnedAll(ls, now, thresholds, recorded, outcomes)
    decreases |ls|
  {
    if ls != [] && !outcomes[0].Raised? {
      WarnedAllGrows(ls[1..], now, thresholds, Warned(ls[0], now, thresholds, recorded, outcomes[0].Sent?),
                     outcomes[1..]);
    }
  }

  /** A pass adds a license's warning exactly when it reaches the threshold and no earlier pass did, in whichever
      term: a renewal does not make a threshold count again. */
  lemma {:induction false} RenewedLicenseWarnedIff(ps: seq<Pass>, p: Pass, thresholds: seq<int>, id: nat, t: int)
    requires thresholds != [] && Passes(ps + [p])
    ensures Passes(ps) && |p.outcomes| == |p.ls| && Records(ps, thresholds) <= Records(ps + [p], thresholds)
    ensures Warning(id, t) in Records(ps + [p], thresholds)[|Records(ps, thresholds)|..] <==>
            PassWarns(p, thresholds, id, t) && !SomePassWarns(ps, thresholds, id, t)
  {
    var all := ps + [p];
    assert all[|ps|] == p && all[..|ps|] == ps && forall i :: 0 <= i < |ps| ==> all[i] == ps[i];
    WarnedAllGrows(p.ls, p.now, thresholds, Records(ps, thresholds), p.outcomes);
    RecordedIff(ps, thresholds, id, t);
    RecordedIff(all, thresholds, id, t);
    OneRecordPerThreshold(all, thresholds);
    OnlyInTail(Records(all, thresholds), |Records(ps, thresholds)|, Warning(id, t));
    assert SomePassWarns(all, thresholds, id, t) <==>
           SomePassWarns(ps, thresholds, id, t) || PassWarns(p, thresholds, id, t) by {
      LastPassOrEarlier(ps, p, thresholds, id, t);
    }
  }

  lemma OnlyInTail(log: seq<Warning>, n: nat, w: Warning)
    requires n <= |log| && forall i, j :: 0 <= i < j < |log| ==> log[i] != log[j]
    ensures w in log[n..] <==> w in log && w !in log[..n]
  {
    assert log == log[..n] + log[n..];
  }

  /** Once a license has a record at every threshold, no later pass ever adds another, whatever its expiry date
      becomes. */
  lemma {:induction false} ExhaustedStaysSilent(ps: seq<Pass>, qs: seq<Pass>, thresholds: seq<int>, id: nat)
    requires thresholds != [] && Passes(ps) && Passes(ps + qs)
    requires Exhausted(ThresholdsOf(Records(ps, thresholds), id), thresholds)
    ensures ThresholdsOf(Records(ps + qs, thresholds), id) == ThresholdsOf(Records(ps, thresholds), id)
    decreases |qs|
  {
    if qs == [] {
      assert ps + qs == ps;
    } else {
      var front, p := qs[..|qs| - 1], qs[|qs| - 1];
      var all := ps + qs;
      assert all[..|all| - 1] == ps + front && all[|all| - 1] == p;
      ExhaustedStaysSilent(ps, front, thresholds, id);
      RecordsAreLog(ps + front, thresholds);
      PassIsLog(p.ls, p.now, thresholds, AllVisits(ps + front), p.outcomes);
      LogStaysSilent(AllVisits(ps + front), Visits(p.ls, p.now, p.outcomes), thresholds, id);
    }
  }

  lemma {:induction false} OneLicense(l: Term, now: int, thresholds: seq<int>, recorded: seq<Warning>)
    requires thresholds != []
    ensures WarnedAll([l], now, thresholds, recorded, [Sent]) == Warned(l, now, thresholds, recorded, true)
  {
    assert [l][1..] == [];
  }

  /** A license warned seven days before its first expiry and then renewed for thirty days gets no warning
      seven days before its second. */
  lemma {:induction false} RenewalUnwarned()
    ensures var first := Pass([Term(0, true, 7 * DAY)], 0, true, false, [Sent]);
            var second := Pass([Term(0, true, 37 * DAY)], 30 * DAY, true, false, [Sent]);
            && Records([first], [7]) == [Warning(0, 7)]
            && InWindow(second.ls[0], second.now, [7]) && Records([first, second], [7]) == [Warning(0, 7)]
  {
    var first := Pass([Term(0, true, 7 * DAY)], 0, true, false, [Sent]);
    var second := Pass([Term(0, true, 37 * DAY)], 30 * DAY, true, false, [Sent]);
    assert [first][..0] == [] && [first, second][..1] == [first];
    OneLicense(first.ls[0], 0, [7], []);
    OneLicense(second.ls[0], 30 * DAY, [7], [Warning(0, 7)]);
  }
}
