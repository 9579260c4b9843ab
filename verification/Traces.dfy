/** Finite sequences of steps: which gaps and whether the matching of gadgets and UDCs are there at the end. */
module Traces {
  import opened Errors
  import opened Text
  import opened Kernel
  import opened Creation
  import opened Machine

  /** One request of a run, with what there was before and after it. `quiet`: no more system calls were to fail. */
  datatype Event = Event(before: View, request: Request, outcome: Outcome, after: View, quiet: bool)

  /** The removal of a gadget a UDC still points at. */
  predicate Dangles(ev: Event) { ev.outcome.halted && ev.request.DropGadget? }

  ghost predicate Happened(e: Env, ev: Event) {
    Fit(ev.request) && Agreeing(e, ev.before) && (Dangles(ev) || Agreeing(e, ev.after)) &&
    Step(e, ev.before, ev.request, ev.after, ev.outcome, ev.quiet)
  }

  /** Each event starts where the one before ended, and nothing follows one that halts the program. */
  ghost predicate Trace(e: Env, events: seq<Event>, v: View, w: View) {
    (forall ev <- events :: Happened(e, ev)) &&
    (forall i, j | 0 <= i < j < |events| && j == i + 1 :: events[j].before == events[i].after) &&
    (forall i :: 0 <= i < |events| - 1 ==> !events[i].outcome.halted) &&
    (if events == [] then w == v else events[0].before == v && events[|events| - 1].after == w)
  }

  lemma TraceExtended(e: Env, events: seq<Event>, v: View, ev: Event)
    requires Trace(e, events, v, ev.before) && Happened(e, ev) && forall x <- events :: !x.outcome.halted
    ensures Trace(e, events + [ev], v, ev.after)
  {
    hide Happened;
  }

  /** The trace without its last event. */
  lemma TracePrefix(e: Env, events: seq<Event>, v: View, w: View)
    requires Trace(e, events, v, w) && events != []
    ensures var ev := events[|events| - 1];
      Trace(e, events[..|events| - 1], v, ev.before) && Happened(e, ev) && ev.after == w &&
      forall x <- events[..|events| - 1] :: !x.outcome.halted
  {
    hide Happened;
    var n := |events| - 1;
    forall x | x in events[..n] ensures !x.outcome.halted {
      var i :| 0 <= i < n && events[i] == x;
    }
  }

  // ----- gaps

  ghost predicate EventOpens(e: Env, ev: Event, x: Gap) {
    Handled(e, ev.before, ev.request) && Opens(e, ev.before, ev.request, ev.after, ev.outcome, x)
  }

  ghost predicate EventCloses(e: Env, ev: Event, x: Gap) {
    Handled(e, ev.before, ev.request) && Closes(ev.before, ev.request, ev.outcome, x)
  }

  ghost predicate NeverClosed(e: Env, events: seq<Event>, i: nat, x: Gap) {
    forall j :: i <= j < |events| ==> !EventCloses(e, events[j], x)
  }

  /** The gap was opened, before the run or by one of its events, and no later event closes it. */
  ghost predicate Lasting(e: Env, events: seq<Event>, v: View, x: Gap) {
    (Open(e, v, x) && NeverClosed(e, events, 0, x)) ||
    exists i :: 0 <= i < |events| && EventOpens(e, events[i], x) && NeverClosed(e, events, i + 1, x)
  }

  lemma EventMoves(e: Env, ev: Event, x: Gap)
    requires Happened(e, ev) && !Dangles(ev)
    ensures Open(e, ev.after, x) <==> EventOpens(e, ev, x) || (Open(e, ev.before, x) && !EventCloses(e, ev, x))
  {
    hide Agreeing, Open, Step, Opens, Closes, Handled;
    if Handled(e, ev.before, ev.request) {
      GapsMoved(e, ev.before, ev.request, ev.after, ev.outcome, ev.quiet, x);
    } else {
      NotMade(e, ev);
    }
  }

  lemma NotMade(e: Env, ev: Event)
    requires Happened(e, ev) && !Handled(e, ev.before, ev.request)
    ensures ev.after == ev.before && ev.outcome == NO_HANDLE
  {}

  lemma LastingNext(e: Env, events: seq<Event>, ev: Event, v: View, x: Gap)
    ensures Lasting(e, events + [ev], v, x) <==> EventOpens(e, ev, x) || (Lasting(e, events, v, x) && !EventCloses(e, ev, x))
  {
    hide Open, EventOpens, EventCloses;
    var more := events + [ev];
    assert forall i: nat | i <= |events| :: NeverClosed(e, more, i, x) <==> NeverClosed(e, events, i, x) && !EventCloses(e, ev, x) by {
      forall i: nat | i <= |events|
        ensures NeverClosed(e, more, i, x) <==> NeverClosed(e, events, i, x) && !EventCloses(e, ev, x)
      {
        NeverClosedNext(e, events, ev, i, x);
      }
    }
    assert NeverClosed(e, more, |more|, x);
    if EventOpens(e, ev, x) { assert more[|events|] == ev; }
    if i :| 0 <= i < |events| && EventOpens(e, events[i], x) && NeverClosed(e, events, i + 1, x) { assert more[i] == events[i]; }
    if i :| 0 <= i < |more| && EventOpens(e, more[i], x) && NeverClosed(e, more, i + 1, x) {
      if i < |events| { assert events[i] == more[i]; }
    }
  }

  lemma NeverClosedNext(e: Env, events: seq<Event>, ev: Event, i: nat, x: Gap)
    requires i <= |events|
    ensures NeverClosed(e, events + [ev], i, x) <==> NeverClosed(e, events, i, x) && !EventCloses(e, ev, x)
  {
    hide EventCloses;
    var more := events + [ev];
    assert more[|events|] == ev;
    assert forall j :: i <= j < |events| ==> more[j] == events[j];
  }

  /** Memory misses something at the end of a run exactly where an event opened a gap, or there was one, that no later
      event closed. */
  lemma {:induction false} GapsAtTheEnd(e: Env, events: seq<Event>, v: View, w: View, x: Gap)
    requires Trace(e, events, v, w) && forall ev <- events :: !Dangles(ev)
    ensures Open(e, w, x) <==> Lasting(e, events, v, x)
    decreases |events|
  {
    hide Open, Lasting, Happened, Dangles;
    if events == [] {
      NothingHappened(e, v, x);
    } else {
      var n := |events| - 1;
      var ev := events[n];
      TracePrefix(e, events, v, w);
      assert forall y <- events[..n] :: y in events;
      GapsAtTheEnd(e, events[..n], v, ev.before, x);
      EventMoves(e, ev, x);
      LastingNext(e, events[..n], ev, v, x);
      assert events[..n] + [ev] == events;
    }
  }

  lemma NothingHappened(e: Env, v: View, x: Gap)
    ensures Lasting(e, [], v, x) <==> Open(e, v, x)
  {
    hide Open;
  }

  /** Requests after which nothing is missing that was not missing before, whatever fails. */
  predicate Harmless(r: Request) {
    r.ImportFunction? || r.ImportConfig? || r.Bind? || r.Unbind? || r.SetOsConfig? || r.Attach? || r.Detach? || r.DropFunction?
  }

  /** The same as long as no system call is made to fail: the rollbacks have nothing to trip over. */
  predicate HarmlessWhenQuiet(r: Request) {
    Harmless(r) || r.ImportGadget? || (r.MakeGadget? && r.strs.None?) || (r.MakeFunction? && !r.vals.Luns? && !r.vals.Values?) ||
    (r.MakeConfig? && r.str.None?)
  }

  lemma HarmlessOpensNothing(e: Env, ev: Event, x: Gap)
    requires Happened(e, ev) && (Harmless(ev.request) || (ev.quiet && HarmlessWhenQuiet(ev.request)))
    ensures !EventOpens(e, ev, x) && !Dangles(ev)
  {
    hide Agreeing, AttrsFit, ConfigImportStep, FunctionImportStep, BindStep, UnbindStep, SetOsStep, AttachStep, DetachStep, DropFunctionStep,
      Started, GadgetSetup, CreateGadgetError, FunctionMade, ConfigMade, NewFunctionCode, NewConfigCode, LeavesFunction, AttrsSet, ConfigSetup,
      Mirrors, Leftover, ImportGadgetError, Schemes.ImportGadget;
    var r := ev.request;
  }

  /** A complete mirror stays complete over any number of harmless requests. */
  lemma CompleteKept(e: Env, events: seq<Event>, v: View, w: View)
    requires Trace(e, events, v, w) && Complete(e, v)
    requires forall ev <- events :: Harmless(ev.request) || (ev.quiet && HarmlessWhenQuiet(ev.request))
    ensures Complete(e, w)
  {
    hide Happened, Harmless, HarmlessWhenQuiet, Open, EventOpens, Dangles;
    forall x ensures !Open(e, w, x) {
      forall ev | ev in events ensures !EventOpens(e, ev, x) && !Dangles(ev) { HarmlessOpensNothing(e, ev, x); }
      GapsAtTheEnd(e, events, v, w, x);
    }
  }

  // ----- the matching

  /** The two-way matching survives any run in which no UDC is given to a gadget while it still points at another. */
  lemma {:induction false} MatchingKept(e: Env, events: seq<Event>, v: View, w: View)
    requires Trace(e, events, v, w) && MatchedView(v)
    requires forall ev <- events :: !Dangles(ev) && !Displaces(e, ev.before, ev.request, ev.outcome)
    ensures MatchedView(w)
    decreases |events|
  {
    hide Happened, MatchedView, Displaces, Dangles;
    if events == [] {
    } else {
      var n := |events| - 1;
      TracePrefix(e, events, v, w);
      assert forall y <- events[..n] :: y in events;
      MatchingKept(e, events[..n], v, events[n].before);
      MatchedNext(e, events[n]);
    }
  }

  lemma MatchedNext(e: Env, ev: Event)
    requires Happened(e, ev) && MatchedView(ev.before) && !Displaces(e, ev.before, ev.request, ev.outcome)
    ensures MatchedView(ev.after)
  {
    hide Agreeing, MatchedView, Step, Displaces, Handled;
    if Handled(e, ev.before, ev.request) {
      MatchedMoved(e, ev.before, ev.request, ev.after, ev.outcome, ev.quiet);
    } else {
      NotMade(e, ev);
    }
  }
}
