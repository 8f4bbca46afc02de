/** The publish/subscribe registry (`matrix_client_core/notifier.py`): a list
    of listeners without duplicates, a broadcast that reports whether anyone
    handled the event, and the dispatch of an event to a handler method
    named after it. */
module Notifier {
  import opened Wrappers
  import opened Sequences

  // ---------------------------------------------------------------------
  // list.remove
  // ---------------------------------------------------------------------

  /** Where `x` first occurs in `s`. */
  function IndexOf<L(==)>(s: seq<L>, x: L): (i: nat)
    requires x in s
    ensures i < |s| && s[i] == x && x !in s[..i]
    decreases |s|
  {
    if s[0] == x then 0
    else
      var j := IndexOf(s[1..], x);
      assert s[..j + 1] == [s[0]] + s[1..][..j];
      j + 1
  }

  /** Python's `list.remove` on a list that holds `x`, and the list itself
      when it does not: drop the first occurrence of `x`. */
  function RemoveFirst<L(==)>(s: seq<L>, x: L): (r: seq<L>)
    ensures x !in s ==> r == s
    ensures x in s ==> |r| == |s| - 1
  {
    if x in s then s[..IndexOf(s, x)] + s[IndexOf(s, x) + 1..] else s
  }

  /** Position `k` of `s` with position `i` cut out is position `k` or
      `k + 1` of `s`. */
  lemma CutAt<L>(s: seq<L>, i: int, k: int)
    requires 0 <= i < |s| && 0 <= k < |s| - 1
    ensures (s[..i] + s[i + 1..])[k] == s[if k < i then k else k + 1]
  {
  }

  /** From a list without duplicates, `RemoveFirst` removes `x` altogether
      and adds no duplicate. */
  lemma RemoveFirstDistinct<L>(s: seq<L>, x: L)
    requires Distinct(s)
    ensures Distinct(RemoveFirst(s, x))
    ensures x !in RemoveFirst(s, x)
  {
    if x in s {
      var i := IndexOf(s, x);
      var r := RemoveFirst(s, x);
      forall a, b | 0 <= a < b < |r| ensures r[a] != r[b] {
        CutAt(s, i, a);
        CutAt(s, i, b);
      }
      forall k | 0 <= k < |r| ensures r[k] != x {
        CutAt(s, i, k);
      }
    }
  }

  /** `RemoveFirst` keeps every element other than `x`. */
  lemma RemoveFirstKeeps<L>(s: seq<L>, x: L, y: L)
    requires y != x
    ensures y in RemoveFirst(s, x) <==> y in s
  {
    if x in s {
      var i := IndexOf(s, x);
      var r := RemoveFirst(s, x);
      if y in s {
        var k :| 0 <= k < |s| && s[k] == y;
        CutAt(s, i, if k < i then k else k - 1);
      }
      if y in r {
        var k :| 0 <= k < |r| && r[k] == y;
        CutAt(s, i, k);
      }
    }
  }

  // ---------------------------------------------------------------------
  // Notifier
  // ---------------------------------------------------------------------

  /** A registry of listeners of type `L`, compared by `==` as Python
      compares callables. */
  class Notifier<L(==)> {
    var listeners: seq<L>

    ghost predicate Valid()
      reads this
    {
      Distinct(listeners)
    }

    /** `__init__`: no listeners. */
    constructor ()
      ensures Valid() && listeners == []
    {
      listeners := [];
    }

    /** `add_listener`: append a listener not yet registered; report whether
        it was added. */
    method AddListener(x: L) returns (added: bool)
      requires Valid()
      modifies this
      ensures Valid()
      ensures added <==> x !in old(listeners)
      ensures listeners == if added then old(listeners) + [x] else old(listeners)
    {
      if x in listeners {
        return false;
      }
      listeners := listeners + [x];
      return true;
    }

    /** `remove_listener`: remove a registered listener, keeping the others
        in order; report whether it was registered. */
    method RemoveListener(x: L) returns (removed: bool)
      requires Valid()
      modifies this
      ensures Valid()
      ensures removed <==> x in old(listeners)
      ensures listeners == RemoveFirst(old(listeners), x)
      ensures x !in listeners
      ensures forall y :: y != x ==> (y in listeners <==> y in old(listeners))
    {
      if x !in listeners {
        return false;
      }
      RemoveFirstDistinct(listeners, x);
      forall y | y != x ensures y in RemoveFirst(listeners, x) <==> y in listeners {
        RemoveFirstKeeps(listeners, x, y);
      }
      listeners := RemoveFirst(listeners, x);
      return true;
    }

    /** `notify`: call the listeners in registration order and report
        `None` without listeners, `Some(true)` when at least one call was
        truthy, and `Some(false)` otherwise.  `call(l, ...)` is what calling
        listener `l` comes to: the truthiness of its return value, or the
        exception it raises.  An exception leaves `notify` at once, so the
        later listeners are not called.  `calls` records the listeners
        called, in order. */
    method Notify<D, E>(service: string, event: string, data: D, call: (L, string, string, D) -> Result<bool, E>)
      returns (result: Result<Option<bool>, E>, ghost calls: seq<L>)
      ensures result.Failure? <==>
                exists i :: 0 <= i < |listeners| && call(listeners[i], service, event, data).Failure?
      ensures result.Failure? ==>
                exists f :: && 0 <= f < |listeners|
                            && calls == listeners[..f + 1]
                            && call(listeners[f], service, event, data) == Failure(result.error)
                            && forall i :: 0 <= i < f ==> call(listeners[i], service, event, data).Success?
      ensures result.Success? ==> calls == listeners
      ensures result == Success(None) <==> listeners == []
      ensures result == Success(Some(true)) <==>
                && (forall i :: 0 <= i < |listeners| ==> call(listeners[i], service, event, data).Success?)
                && exists i :: 0 <= i < |listeners| && call(listeners[i], service, event, data) == Success(true)
      ensures result == Success(Some(false)) <==>
                && listeners != []
                && forall i :: 0 <= i < |listeners| ==> call(listeners[i], service, event, data) == Success(false)
    {
      var handled: Option<bool> := None;
      calls := [];
      for k := 0 to |listeners|
        invariant calls == listeners[..k]
        invariant forall i :: 0 <= i < k ==> call(listeners[i], service, event, data).Success?
        invariant handled.None? <==> k == 0
        invariant handled == Some(true) <==>
                    exists i :: 0 <= i < k && call(listeners[i], service, event, data) == Success(true)
        invariant handled == Some(false) ==>
                    forall i :: 0 <= i < k ==> call(listeners[i], service, event, data) == Success(false)
        invariant k > 0 && handled != Some(false) ==>
                    exists i :: 0 <= i < k && call(listeners[i], service, event, data) == Success(true)
      {
        var r := call(listeners[k], service, event, data);
        calls := calls + [listeners[k]];
        if r.Failure? {
          return Failure(r.error), calls;
        }
        if handled != Some(true) {
          handled := Some(r.value);
        }
        assert r.value ==> call(listeners[k], service, event, data) == Success(true);
        assert !r.value ==> call(listeners[k], service, event, data) == Success(false);
      }
      assert listeners[..|listeners|] == listeners;
      result := Success(handled);
    }
  }

  // ---------------------------------------------------------------------
  // BaseNotificationListener
  // ---------------------------------------------------------------------

  /** `event.replace(".", "_")`. */
  function DotsToUnderscores(event: string): (r: string)
    ensures |r| == |event|
    ensures forall i :: 0 <= i < |event| ==> r[i] == if event[i] == '.' then '_' else event[i]
    ensures '.' !in r
    decreases |event|
  {
    if event == [] then []
    else [if event[0] == '.' then '_' else event[0]] + DotsToUnderscores(event[1..])
  }

  /** The name of the method `handle_notification` looks for. */
  function HandlerName(event: string): (n: string)
    ensures |n| == |event| + 3 && n[..3] == "on_"
    ensures forall i :: 0 <= i < |event| ==> n[i + 3] == if event[i] == '.' then '_' else event[i]
  {
    "on_" + DotsToUnderscores(event)
  }

  /** Two events reach the same handler exactly when they agree after
      reading every `.` as `_`; so an event is told apart from one that
      has `_` where it has `.` only when neither name has an `_`. */
  lemma HandlerNameCollision(e1: string, e2: string)
    ensures HandlerName(e1) == HandlerName(e2) <==> DotsToUnderscores(e1) == DotsToUnderscores(e2)
    ensures '_' !in e1 && '_' !in e2 ==> (HandlerName(e1) == HandlerName(e2) <==> e1 == e2)
  {
    var n1, n2 := HandlerName(e1), HandlerName(e2);
    if n1 == n2 {
      assert n1[3..] == DotsToUnderscores(e1) && n2[3..] == DotsToUnderscores(e2);
    }
    if '_' !in e1 && '_' !in e2 && n1 == n2 {
      assert |e1| == |e2|;
      forall i | 0 <= i < |e1| ensures e1[i] == e2[i] {
        assert n1[i + 3] == n2[i + 3];
      }
    }
  }

  /** A name with `on_` in front and the event, dots read as underscores,
      after it is the event's handler name. */
  lemma HandlerNameIs(e: string, n: string)
    requires |n| == |e| + 3 && n[..3] == "on_"
    requires forall i :: 0 <= i < |e| ==> n[i + 3] == if e[i] == '.' then '_' else e[i]
    ensures HandlerName(e) == n
  {
    var h := HandlerName(e);
    forall i | 0 <= i < 3 ensures h[i] == n[i] {
      assert h[i] == h[..3][i] && n[i] == n[..3][i];
    }
  }

  /** The handler names of the three events `NotificationListener` reacts
      to: the login, the start of the first sync, and its end. */
  lemma LoginConnectHandler()
    ensures HandlerName("mcc.mxc.login.connect") == "on_mcc_mxc_login_connect"
  {
    HandlerNameIs("mcc.mxc.login.connect", "on_mcc_mxc_login_connect");
  }

  lemma FirstSyncHandler()
    ensures HandlerName("mcc.mxc.first_sync.sync") == "on_mcc_mxc_first_sync_sync"
  {
    HandlerNameIs("mcc.mxc.first_sync.sync", "on_mcc_mxc_first_sync_sync");
  }

  lemma FirstSyncDoneHandler()
    ensures HandlerName("mcc.mxc.first_sync.sync_done") == "on_mcc_mxc_first_sync_sync_done"
  {
    HandlerNameIs("mcc.mxc.first_sync.sync_done", "on_mcc_mxc_first_sync_sync_done");
  }

  /** `handle_notification` on a listener whose methods are `handlers`, by
      name: the method named after the event handles it, and without one
      `default_handler` returns `None`. */
  function HandleNotification<D, V>(handlers: map<string, (string, string, D) -> Option<V>>,
                                    service: string, event: string, data: D): (r: Option<V>)
    ensures ("on_" + DotsToUnderscores(event)) in handlers ==>
              r == handlers["on_" + DotsToUnderscores(event)](service, event, data)
    ensures r.Some? ==> HandlerName(event) in handlers
  {
    var hname := HandlerName(event);
    if hname in handlers then handlers[hname](service, event, data) else None
  }

  // ---------------------------------------------------------------------
  // The module's own script
  // ---------------------------------------------------------------------

  /** The two listeners of the script: a plain function that returns
      `None`, and a bound method that returns `True`. */
  datatype ScriptListener = PlainNotifier | OtherNotifier

  /** Truthiness of what each script listener returns; neither raises. */
  function ScriptCall(l: ScriptListener, service: string, event: string, data: string): (handled: Result<bool, ()>)
    ensures handled.Success?
    ensures handled.value <==> l == OtherNotifier
  {
    Success(l.OtherNotifier?)
  }

  /** The data the script sends with its events. */
  const NoShow := "This event should not show."
  const ShowTwice := "This event should show twice."
  const ShowOnce := "This event should show once (through Notifier only)."

  /** The first half of the script (`notifier.py` lines 84-95): a notify
      with nobody listening, then adding the two listeners twice each and
      removing one that is not registered. */
  method ScriptAdds(n: Notifier<ScriptListener>, file: string) returns (results: seq<Option<bool>>)
    requires n.Valid() && n.listeners == []
    modifies n
    ensures n.Valid() && n.listeners == [PlainNotifier, OtherNotifier]
    ensures results == [None, Some(true), Some(false), Some(false), Some(true), Some(false)]
  {
    ghost var calls: seq<ScriptListener>;
    var r1: Result<Option<bool>, ()>;
    var b2, b3, b4, b5, b6: bool;
    r1, calls := n.Notify(file, "e.test.noshow", NoShow, ScriptCall);
    b2 := n.AddListener(PlainNotifier);
    assert n.listeners == [PlainNotifier];
    b3 := n.AddListener(PlainNotifier);
    b4 := n.RemoveListener(OtherNotifier);
    assert n.listeners == [PlainNotifier];
    b5 := n.AddListener(OtherNotifier);
    b6 := n.AddListener(OtherNotifier);
    results := [r1.value, Some(b2), Some(b3), Some(b4), Some(b5), Some(b6)];
  }

  /** The second half (`notifier.py` lines 96-109): a notify both listeners
      receive, a notify only the one returning `None` receives, and removing
      everything, twice. */
  method ScriptRemoves(n: Notifier<ScriptListener>, file: string) returns (results: seq<Option<bool>>)
    requires n.Valid() && n.listeners == [PlainNotifier, OtherNotifier]
    modifies n
    ensures n.Valid() && n.listeners == []
    ensures results == [Some(true), Some(true), Some(false), Some(false), Some(true), Some(false), None]
  {
    ghost var calls: seq<ScriptListener>;
    var r7, r9, r13: Result<Option<bool>, ()>;
    var b8, b10, b11, b12: bool;
    assert ScriptCall(n.listeners[1], file, "e.test.twice", ShowTwice) == Success(true);
    r7, calls := n.Notify(file, "e.test.twice", ShowTwice, ScriptCall);
    b8 := n.RemoveListener(OtherNotifier);
    assert n.listeners == [PlainNotifier];
    assert forall i :: 0 <= i < |n.listeners| ==> ScriptCall(n.listeners[i], file, "e.test.once", ShowOnce) == Success(false);
    r9, calls := n.Notify(file, "e.test.once", ShowOnce, ScriptCall);
    b10 := n.RemoveListener(OtherNotifier);
    b11 := n.RemoveListener(PlainNotifier);
    assert n.listeners == [];
    b12 := n.RemoveListener(PlainNotifier);
    r13, calls := n.Notify(file, "e.test.noshow", NoShow, ScriptCall);
    results := [r7.value, Some(b8), r9.value, Some(b10), Some(b11), Some(b12), r13.value];
  }

  /** The module's script on a fresh registry: each call's result, with the
      booleans of adding and removing as `Some`, and the listeners left. */
  method ScriptedSession(file: string) returns (results: seq<Option<bool>>, left: seq<ScriptListener>)
    ensures results == [None, Some(true), Some(false), Some(false), Some(true), Some(false),
                        Some(true), Some(true), Some(false), Some(false), Some(true), Some(false), None]
    ensures left == []
  {
    var n := new Notifier<ScriptListener>();
    var first := ScriptAdds(n, file);
    var second := ScriptRemoves(n, file);
    results := first + second;
    left := n.listeners;
  }
}
