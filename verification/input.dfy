/** The input abstraction of the firmware: a table of event handlers with
    slot reuse, dispatch of an event to every registered handler, and the
    reset detector that counts quick state changes (src/shelly_input.cpp). */
module Input {
  import opened Wrappers

  /** Input events, in the order of the firmware's enumeration. */
  datatype Event = Change | Single | Double | Long | Reset

  /** A registered callback; distinct tags stand for distinct callbacks. */
  datatype HandlerFn = HandlerFn(tag: nat)

  /** One call of a handler with an event and the input state. */
  datatype Invocation = Invocation(handler: HandlerFn, ev: Event, state: bool)

  /** The number of changes that fire a reset. */
  const ResetChanges := 10

  /** Index of the first empty slot, or the table size when none is empty. */
  function FirstEmpty(handlers: seq<Option<HandlerFn>>): (i: nat)
    ensures i <= |handlers|
    decreases |handlers|
  {
    if handlers == [] || handlers[0].None? then 0
    else 1 + FirstEmpty(handlers[1..])
  }

  /** FirstEmpty skips only occupied slots and stops at an empty one. */
  lemma {:induction false} FirstEmptySpec(handlers: seq<Option<HandlerFn>>)
    ensures forall k :: 0 <= k < FirstEmpty(handlers) ==> handlers[k].Some?
    ensures FirstEmpty(handlers) < |handlers| ==> handlers[FirstEmpty(handlers)].None?
    decreases |handlers|
  {
    if handlers != [] && handlers[0].Some? {
      FirstEmptySpec(handlers[1..]);
      forall k | 0 < k < FirstEmpty(handlers) ensures handlers[k].Some? {
        assert handlers[k] == handlers[1..][k - 1];
      }
    }
  }

  /** After a slot is emptied, the next registration takes that slot or an
      earlier empty one. */
  lemma {:induction false} AddReusesRemovedSlot(handlers: seq<Option<HandlerFn>>, i: nat)
    requires i < |handlers|
    ensures FirstEmpty(handlers[i := None]) <= i
  {
    FirstEmptyAtMost(handlers[i := None], i);
  }

  /** No registration goes past an empty slot. */
  lemma {:induction false} FirstEmptyAtMost(handlers: seq<Option<HandlerFn>>, i: nat)
    requires i < |handlers| && handlers[i].None?
    ensures FirstEmpty(handlers) <= i
    decreases i
  {
    if i > 0 && handlers[0].Some? {
      assert handlers[1..][i - 1] == handlers[i];
      FirstEmptyAtMost(handlers[1..], i - 1);
    }
  }

  /** The handler calls of one dispatch, in slot order; empty slots are
      skipped. */
  function Dispatch(handlers: seq<Option<HandlerFn>>, ev: Event, state: bool): seq<Invocation>
    decreases |handlers|
  {
    if handlers == [] then []
    else
      var first := match handlers[0]
        case None => []
        case Some(h) => [Invocation(h, ev, state)];
      first + Dispatch(handlers[1..], ev, state)
  }

  /** Dispatch keeps slot order: the calls for a table made of two parts
      are the calls for the first part followed by those for the second. */
  lemma {:induction false} DispatchAppend(a: seq<Option<HandlerFn>>, b: seq<Option<HandlerFn>>, ev: Event, state: bool)
    ensures Dispatch(a + b, ev, state) == Dispatch(a, ev, state) + Dispatch(b, ev, state)
    decreases |a|
  {
    if a == [] {
      assert a + b == b;
    } else {
      assert (a + b)[1..] == a[1..] + b;
      DispatchAppend(a[1..], b, ev, state);
    }
  }

  /** A one-slot table calls its handler once, an empty slot nothing. */
  lemma {:induction false} DispatchOne(slot: Option<HandlerFn>, ev: Event, state: bool)
    ensures Dispatch([slot], ev, state) ==
      match slot case None => [] case Some(h) => [Invocation(h, ev, state)]
  {
    assert [slot][1..] == [];
  }

  /** Removing the handler of slot `i` drops exactly its call: the other
      handlers are still called, in the same order. */
  lemma {:induction false} DispatchAfterRemove(handlers: seq<Option<HandlerFn>>, i: nat, ev: Event, state: bool)
    requires i < |handlers|
    ensures Dispatch(handlers[i := None], ev, state)
      == Dispatch(handlers[..i], ev, state) + Dispatch(handlers[i + 1..], ev, state)
  {
    var h := handlers[i := None];
    assert h == handlers[..i] + ([None] + handlers[i + 1..]);
    DispatchAppend(handlers[..i], [None] + handlers[i + 1..], ev, state);
    DispatchAppend([None], handlers[i + 1..], ev, state);
    DispatchOne(None, ev, state);
  }

  /** CallHandlers as written: every slot is called, and calling the empty
      callback of a removed slot throws; None stands for that exception. */
  function DispatchAsWritten(handlers: seq<Option<HandlerFn>>, ev: Event, state: bool): Option<seq<Invocation>>
    decreases |handlers|
  {
    if handlers == [] then Some([])
    else match (handlers[0], DispatchAsWritten(handlers[1..], ev, state))
      case (Some(h), Some(rest)) => Some([Invocation(h, ev, state)] + rest)
      case _ => None
  }

  /** As written, any event after a RemoveHandler throws. */
  lemma {:induction false} RemovedHandlerBreaksDispatch(handlers: seq<Option<HandlerFn>>, i: nat, ev: Event, state: bool)
    requires i < |handlers|
    ensures DispatchAsWritten(handlers[i := None], ev, state) == None
  {
    NoneSlotBreaksDispatch(handlers[i := None], i, ev, state);
  }

  lemma {:induction false} NoneSlotBreaksDispatch(handlers: seq<Option<HandlerFn>>, i: nat, ev: Event, state: bool)
    requires i < |handlers| && handlers[i].None?
    ensures DispatchAsWritten(handlers, ev, state) == None
    decreases i
  {
    if i > 0 {
      assert handlers[1..][i - 1] == handlers[i];
      NoneSlotBreaksDispatch(handlers[1..], i - 1, ev, state);
    }
  }

  /** While no slot has been emptied the written and the corrected dispatch
      agree. */
  lemma {:induction false} DispatchAsWrittenAgrees(handlers: seq<Option<HandlerFn>>, ev: Event, state: bool)
    requires forall k :: 0 <= k < |handlers| ==> handlers[k].Some?
    ensures DispatchAsWritten(handlers, ev, state) == Some(Dispatch(handlers, ev, state))
    decreases |handlers|
  {
    if handlers != [] {
      assert forall k :: 0 <= k < |handlers[1..]| ==> handlers[1..][k] == handlers[k + 1];
      DispatchAsWrittenAgrees(handlers[1..], ev, state);
    }
  }

  /** The calls of a series of events, dispatched one after the other. */
  function DispatchAll(handlers: seq<Option<HandlerFn>>, events: seq<(Event, bool)>): seq<Invocation>
    decreases |events|
  {
    if events == [] then []
    else Dispatch(handlers, events[0].0, events[0].1) + DispatchAll(handlers, events[1..])
  }

  /** Dispatching one more event appends its calls. */
  lemma {:induction false} DispatchAllSnoc(handlers: seq<Option<HandlerFn>>, events: seq<(Event, bool)>, e: (Event, bool))
    ensures DispatchAll(handlers, events + [e]) == DispatchAll(handlers, events) + Dispatch(handlers, e.0, e.1)
    decreases |events|
  {
    if events == [] {
      assert events + [e] == [e];
      assert [e][1..] == [];
    } else {
      assert (events + [e])[1..] == events[1..] + [e];
      DispatchAllSnoc(handlers, events[1..], e);
    }
  }

  /** The calls of two series of events, one after the other. */
  lemma {:induction false} DispatchAllAppend(handlers: seq<Option<HandlerFn>>, a: seq<(Event, bool)>, b: seq<(Event, bool)>)
    ensures DispatchAll(handlers, a + b) == DispatchAll(handlers, a) + DispatchAll(handlers, b)
    decreases |a|
  {
    if a == [] {
      assert a + b == b;
    } else {
      assert (a + b)[1..] == a[1..] + b;
      DispatchAllAppend(handlers, a[1..], b);
    }
  }

  /** The reset detector's step for one change: the count restarts after a
      gap longer than `window`, and the tenth change fires and zeroes it.
      Returns the new count and whether a reset fires. */
  function CountChange(count: int, gap: real, window: real): (int, bool) {
    var c := (if gap > window then 0 else count) + 1;
    if c >= ResetChanges then (0, true) else (c, false)
  }

  /** The count stays below ten, and a reset fires exactly on a change that
      follows nine quick ones. */
  lemma {:induction false} CountChangeSpec(count: int, gap: real, window: real)
    requires 0 <= count < ResetChanges
    ensures var (c, fired) := CountChange(count, gap, window);
      && 0 <= c < ResetChanges
      && (fired <==> gap <= window && count == ResetChanges - 1)
      && (!fired ==> c == (if gap > window then 1 else count + 1))
  {
  }

  /** `n` changes in a row, each within the window of the previous one. */
  function QuickChanges(count: int, n: nat, window: real): (int, bool)
    decreases n
  {
    if n == 0 then (count, false)
    else
      var (c, fired) := CountChange(count, 0.0, window);
      if n == 1 then (c, fired) else QuickChanges(c, n - 1, window)
  }

  /** From a zero count, nine quick changes fire nothing and the tenth
      fires the reset. */
  lemma {:induction false} TenthQuickChangeResets(window: real)
    requires window >= 0.0
    ensures QuickChanges(0, ResetChanges - 1, window) == (ResetChanges - 1, false)
    ensures QuickChanges(0, ResetChanges, window) == (0, true)
  {
    QuickChangesCount(0, ResetChanges - 1, window);
    QuickChangesCount(0, ResetChanges - 2, window);
    QuickChangesSplit(0, ResetChanges - 1, window);
  }

  lemma {:induction false} QuickChangesCount(count: int, n: nat, window: real)
    requires window >= 0.0 && 0 <= count && count + n < ResetChanges
    ensures QuickChanges(count, n, window) == (count + n, false)
    decreases n
  {
    if n > 1 {
      QuickChangesCount(count + 1, n - 1, window);
    }
  }

  lemma {:induction false} QuickChangesSplit(count: int, n: nat, window: real)
    requires window >= 0.0 && 0 <= count && count + n < ResetChanges && n >= 1
    ensures QuickChanges(count, n + 1, window)
      == CountChange(QuickChanges(count, n, window).0, 0.0, window)
    decreases n
  {
    if n > 1 {
      QuickChangesSplit(count + 1, n - 1, window);
    }
  }

  /** An input with its table of event handlers. Removed handlers leave an
      empty slot, which a later registration reuses. */
  class Input {
    const id: int
    var handlers: seq<Option<HandlerFn>>
    /** The handler calls made so far, in order. */
    var calls: seq<Invocation>

    constructor (id: int)
      ensures this.id == id && handlers == [] && calls == []
    {
      this.id := id;
      handlers := [];
      calls := [];
    }

    /** AddHandler: stores `h` in the first empty slot, else appends it;
        returns the slot index. */
    method AddHandler(h: HandlerFn) returns (hi: int)
      modifies this
      ensures hi == FirstEmpty(old(handlers))
      ensures handlers == if hi < |old(handlers)| then old(handlers)[hi := Some(h)]
        else old(handlers) + [Some(h)]
      ensures calls == old(calls)
    {
      var i := 0;
      while i < |handlers|
        invariant 0 <= i <= |handlers| && handlers == old(handlers)
        invariant FirstEmpty(handlers) == i + FirstEmpty(handlers[i..])
      {
        assert handlers[i..][0] == handlers[i];
        if handlers[i].None? {
          handlers := handlers[i := Some(h)];
          return i;
        }
        assert handlers[i..][1..] == handlers[i + 1..];
        i := i + 1;
      }
      handlers := handlers + [Some(h)];
      return i;
    }

    /** RemoveHandler: empties slot `hi` without shrinking the table; a
        negative ID is ignored. */
    method RemoveHandler(hi: int)
      requires hi < |handlers|
      modifies this
      ensures handlers == if hi < 0 then old(handlers) else old(handlers)[hi := None]
      ensures calls == old(calls)
    {
      if hi < 0 {
        return;
      }
      handlers := handlers[hi := None];
    }

    /** CallHandlers: calls every registered handler, in slot order. */
    method CallHandlers(ev: Event, state: bool)
      modifies this
      ensures handlers == old(handlers)
      ensures calls == old(calls) + Dispatch(handlers, ev, state)
    {
      var i := 0;
      assert handlers[..0] == [];
      while i < |handlers|
        invariant 0 <= i <= |handlers| && handlers == old(handlers)
        invariant calls == old(calls) + Dispatch(handlers[..i], ev, state)
      {
        assert handlers[..i + 1] == handlers[..i] + [handlers[i]];
        DispatchAppend(handlers[..i], [handlers[i]], ev, state);
        DispatchOne(handlers[i], ev, state);
        if handlers[i].Some? {
          calls := calls + [Invocation(handlers[i].value, ev, state)];
        }
        i := i + 1;
      }
      assert handlers[..i] == handlers;
    }
  }

  /** The first-generation input pin (src/shelly_input.cpp): reports every
      interrupt as a change and counts changes for the reset gesture. */
  class BasicInputPin {
    const input: Input
    const onValue: int
    const enableReset: bool
    var changeCount: int
    var lastChangeTs: real

    ghost predicate Valid()
      reads this
    {
      0 <= changeCount < ResetChanges
    }

    constructor (input: Input, onValue: int, enableReset: bool)
      ensures this.input == input && this.onValue == onValue && this.enableReset == enableReset
      ensures changeCount == 0 && lastChangeTs == 0.0
      ensures Valid()
    {
      this.input := input;
      this.onValue := onValue;
      this.enableReset := enableReset;
      changeCount := 0;
      lastChangeTs := 0.0;
    }

    /** HandleGPIOInt with the pin reading `level` at uptime `now`: the
        change goes to the handlers, then, with reset enabled, a change more
        than 10 s after the previous one restarts the count and the tenth
        change fires a reset. */
    method HandleGPIOInt(level: bool, now: real)
      requires Valid()
      modifies this, input
      ensures Valid()
      ensures lastChangeTs == now
      ensures var cur := (if level then 1 else 0) == onValue;
        var (c, fired) := CountChange(old(changeCount), now - old(lastChangeTs), 10.0);
        && changeCount == (if enableReset then c else old(changeCount))
        && input.handlers == old(input.handlers)
        && input.calls == old(input.calls) + Dispatch(input.handlers, Change, cur)
             + (if enableReset && fired then Dispatch(input.handlers, Reset, cur) else [])
    {
      var cur := (if level then 1 else 0) == onValue;
      input.CallHandlers(Change, cur);
      if enableReset {
        CountChangeSpec(changeCount, now - lastChangeTs, 10.0);
        if now - lastChangeTs > 10.0 {
          changeCount := 0;
        }
        changeCount := changeCount + 1;
        if changeCount >= ResetChanges {
          changeCount := 0;
          input.CallHandlers(Reset, cur);
        }
      }
      lastChangeTs := now;
    }
  }
}
