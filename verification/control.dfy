/** The daemon's control side (daemon.go:15-22, 72-146): the command read from
    a client connection, the `active` flag and the stored cancel function, and
    how `toggle`, `status`, a session's start, a stop and a session's own end
    change them.

    A session is named by the number of its context; `cancel == Some(id)` is
    `d.cancel` holding the cancel function of session `id`. Which sessions
    are still running and which have been cancelled is ghost bookkeeping used
    to state that every running session can still be stopped. The mutex is
    left out and each method below is one atomic step. `startDictation`,
    `stopDictation`, `status` and the cleanup each hold the lock throughout,
    but `toggle` does not: it reads `active` under the lock and acts on it
    after releasing it (daemon.go:87-100), so `ToggleAct` models its second
    half on its own and `RacingTogglesLoseSession` shows what two concurrent
    toggles do. The indicators are left out. */
module Control {
  import opened Common

  /** The size of the read buffer (daemon.go:75). */
  const ReadLimit: nat := 64

  /** The command a connection carries (daemon.go:75-84): the bytes of one
      read, at most 64, with one trailing newline removed; nothing when the
      read returns no bytes. Bytes are characters here. */
  function ParseCommand(data: string): (r: Option<string>)
    ensures r.None? <==> data == []
    ensures r.Some? ==> |r.value| <= ReadLimit
    ensures r.Some? ==> var n := Min(|data|, ReadLimit);
                        (r.value == data[..n] && data[n - 1] != '\n')
                        || (r.value + "\n" == data[..n])
  {
    if data == [] then None
    else
      var cmd := data[..Min(|data|, ReadLimit)];
      if cmd[|cmd| - 1] == '\n' then Some(cmd[..|cmd| - 1]) else Some(cmd)
  }

  /** Only one newline is removed: a doubled newline leaves an unknown
      command, and bytes past the 64th are never seen. */
  lemma ParseCommandExamples()
    ensures ParseCommand("toggle\n") == Some("toggle")
    ensures ParseCommand("status") == Some("status")
    ensures ParseCommand("toggle\n\n") == Some("toggle\n")
    ensures ParseCommand("") == None
  {
    assert "toggle\n"[..7] == "toggle\n";
    assert "toggle\n"[..7][..6] == "toggle";
    assert "toggle\n\n"[..8] == "toggle\n\n";
    assert "toggle\n\n"[..8][..7] == "toggle\n";
    assert "status"[..6] == "status";
  }

  /** The control state: the real fields `active` and `cancel`, the context
      number a new session would get, and the ghost sets of sessions whose
      goroutine is still running and of sessions whose context was cancelled. */
  datatype Ctl = Ctl(active: bool, cancel: Option<nat>, nextId: nat,
                     running: set<nat>, cancelled: set<nat>)

  function Initial(): Ctl
  {
    Ctl(false, None, 0, {}, {})
  }

  /** `startDictation` (daemon.go:114-124): a fresh context, stored as the
      current one, and its session started. */
  function StartSpec(c: Ctl): Ctl
  {
    c.(active := true, cancel := Some(c.nextId), nextId := c.nextId + 1,
       running := c.running + {c.nextId})
  }

  /** `stopDictation` (daemon.go:126-136): cancels the stored context, if
      any, and clears it and the flag. */
  function StopSpec(c: Ctl): Ctl
  {
    c.(active := false, cancel := None,
       cancelled := if c.cancel.Some? then c.cancelled + {c.cancel.value} else c.cancelled)
  }

  /** The deferred cleanup of `runSession` as written (daemon.go:139-146): the
      flag and the stored cancel function are cleared whichever session they
      belong to. */
  function EndAsWrittenSpec(c: Ctl, id: nat): Ctl
  {
    c.(active := false, cancel := None, running := c.running - {id})
  }

  /** The cleanup as intended: a session that ends clears the flag and the
      stored cancel function only while they are still its own. */
  function EndSpec(c: Ctl, id: nat): Ctl
  {
    if c.cancel == Some(id) then c.(active := false, cancel := None, running := c.running - {id})
    else c.(running := c.running - {id})
  }

  /** Every running session that has not been cancelled is the one `stop`
      would cancel, and the flag says whether there is one. Without this a
      session would keep recording and typing while `status` says idle and
      no `toggle` can stop it. */
  ghost predicate Controllable(c: Ctl)
  {
    && (c.active <==> c.cancel.Some?)
    && (c.cancel.Some? ==> c.cancel.value in c.running && c.cancel.value !in c.cancelled)
    && (forall s :: s in c.running && s !in c.cancelled ==> c.cancel == Some(s))
    && (forall s :: s in c.running ==> s < c.nextId)
    && (forall s :: s in c.cancelled ==> s < c.nextId)
  }

  lemma InitialControllable()
    ensures Controllable(Initial())
  {
  }

  /** Starting from idle keeps every session controllable, and the new one is
      the current one. */
  lemma StartKeepsControllable(c: Ctl)
    requires Controllable(c) && !c.active
    ensures Controllable(StartSpec(c))
    ensures StartSpec(c).active && StartSpec(c).cancel == Some(c.nextId)
    ensures c.nextId !in c.running
  {
  }

  /** After a stop, the flag is clear and every running session has been
      cancelled. */
  lemma StopCancelsEverything(c: Ctl)
    requires Controllable(c)
    ensures Controllable(StopSpec(c))
    ensures !StopSpec(c).active && StopSpec(c).cancel.None?
    ensures forall s :: s in StopSpec(c).running ==> s in StopSpec(c).cancelled
  {
  }

  /** A session ending on its own, with the intended cleanup, keeps every
      session controllable; when it was the current session the flag and the
      cancel function are cleared. */
  lemma EndKeepsControllable(c: Ctl, id: nat)
    requires Controllable(c)
    ensures Controllable(EndSpec(c, id))
    ensures c.cancel == Some(id) ==> !EndSpec(c, id).active && EndSpec(c, id).cancel.None?
    ensures c.cancel != Some(id) ==> EndSpec(c, id).active == c.active && EndSpec(c, id).cancel == c.cancel
  {
  }

  /** The two cleanups agree whenever the ending session is still the
      current one, or no session is current. */
  lemma EndAgreesWhenOwned(c: Ctl, id: nat)
    requires Controllable(c)
    requires c.cancel == Some(id) || c.cancel.None?
    ensures EndAsWrittenSpec(c, id) == EndSpec(c, id)
  {
  }

  /** The cleanup as written loses a session: start session 0, stop it, start
      session 1, and let session 0's goroutine finish only now. Session 1
      keeps running uncancelled while the flag says idle and the cancel
      function is gone. */
  lemma StaleEndLosesSession()
    ensures var c := StartSpec(StopSpec(StartSpec(Initial())));
            && Controllable(c)
            && 0 in c.running
            && !Controllable(EndAsWrittenSpec(c, 0))
            && 1 in EndAsWrittenSpec(c, 0).running
            && 1 !in EndAsWrittenSpec(c, 0).cancelled
            && !EndAsWrittenSpec(c, 0).active
            && Controllable(EndSpec(c, 0))
            && EndSpec(c, 0).cancel == Some(1)
  {
    var c := StartSpec(StopSpec(StartSpec(Initial())));
    assert c == Ctl(true, Some(1), 2, {0, 1}, {0});
    var e := EndAsWrittenSpec(c, 0);
    assert 1 in e.running && 1 !in e.cancelled && e.cancel != Some(1);
  }

  /** The reply to a command, given the flag before it (daemon.go:86-111). */
  function ReplyTo(cmd: string, active: bool): string
  {
    if cmd == "toggle" then (if active then "stopped\n" else "started\n")
    else if cmd == "status" then (if active then "active\n" else "idle\n")
    else "unknown command: " + cmd + "\n"
  }

  /** The second half of `toggle` (daemon.go:92-100): `stopDictation` or
      `startDictation`, chosen by the flag `wasActive` read earlier under the
      lock. */
  function ToggleAct(c: Ctl, wasActive: bool): Ctl
  {
    if wasActive then StopSpec(c) else StartSpec(c)
  }

  /** One client connection handled on its own: the new control state and
      the reply, if any. */
  function Handle(c: Ctl, data: string): (Ctl, Option<string>)
  {
    match ParseCommand(data)
    case None => (c, None)
    case Some(cmd) =>
      var next := if cmd == "toggle" then ToggleAct(c, c.active) else c;
      (next, Some(ReplyTo(cmd, c.active)))
  }

  /** Two toggles on an idle daemon whose connections both read the flag
      before either acts: both see idle and both start a session. Either one
      alone keeps the daemon controllable; together, the second overwrites
      the first's cancel function, and session 0 keeps running uncancelled
      with nothing left to stop it. */
  lemma RacingTogglesLoseSession()
    ensures var c := Initial();
            var first := ToggleAct(c, c.active);
            var both := ToggleAct(first, c.active);
            && Controllable(first)
            && !Controllable(both)
            && 0 in both.running && 0 !in both.cancelled
            && both.active && both.cancel == Some(1)
  {
    var c := Initial();
    var both := ToggleAct(ToggleAct(c, c.active), c.active);
    assert both == Ctl(true, Some(1), 2, {0, 1}, {});
    assert 0 in both.running && 0 !in both.cancelled && both.cancel != Some(0);
  }

  /** `toggle` flips the flag and says which way; every other command, and an
      empty read, leaves the state alone; the state stays controllable. */
  lemma HandleSpec(c: Ctl, data: string)
    requires Controllable(c)
    ensures Controllable(Handle(c, data).0)
    ensures ParseCommand(data) == Some("toggle") ==>
              Handle(c, data).0.active == !c.active
              && Handle(c, data).1 == Some(if c.active then "stopped\n" else "started\n")
    ensures ParseCommand(data) != Some("toggle") ==> Handle(c, data).0 == c
    ensures ParseCommand(data) == Some("status") ==>
              Handle(c, data).1 == Some(if c.active then "active\n" else "idle\n")
    ensures data == [] <==> Handle(c, data).1.None?
  {
    if ParseCommand(data) == Some("toggle") {
      if c.active {
        StopCancelsEverything(c);
      } else {
        StartKeepsControllable(c);
      }
    }
  }

  /** An unknown command is echoed back inside the reply. */
  lemma UnknownCommandEchoed(c: Ctl, data: string)
    requires ParseCommand(data).Some?
    requires ParseCommand(data).value != "toggle" && ParseCommand(data).value != "status"
    ensures Handle(c, data).1 == Some("unknown command: " + ParseCommand(data).value + "\n")
    ensures Handle(c, data).0 == c
  {
  }

  /** The daemon object. `running` and `cancelled` are ghost: Go keeps no
      list of sessions. */
  class Daemon {
    var active: bool
    var cancel: Option<nat>
    var nextId: nat
    ghost var running: set<nat>
    ghost var cancelled: set<nat>

    ghost function State(): Ctl
      reads this
    {
      Ctl(active, cancel, nextId, running, cancelled)
    }

    constructor()
      ensures State() == Initial()
    {
      active, cancel, nextId := false, None, 0;
      running, cancelled := {}, {};
    }

    method StartDictation() returns (id: nat)
      modifies this
      ensures State() == StartSpec(old(State()))
      ensures id == old(nextId)
    {
      id := nextId;
      nextId := nextId + 1;
      active := true;
      cancel := Some(id);
      running := running + {id};
    }

    method StopDictation()
      modifies this
      ensures State() == StopSpec(old(State()))
    {
      if cancel.Some? {
        cancelled := cancelled + {cancel.value};
        cancel := None;
      }
      active := false;
    }

    /** `runSession`'s deferred cleanup as written. */
    method SessionEndedAsWritten(id: nat)
      modifies this
      ensures State() == EndAsWrittenSpec(old(State()), id)
    {
      active := false;
      cancel := None;
      running := running - {id};
    }

    /** The cleanup as intended: only the current session clears the flag. */
    method SessionEnded(id: nat)
      requires Controllable(State())
      modifies this
      ensures State() == EndSpec(old(State()), id)
      ensures Controllable(State())
    {
      EndKeepsControllable(State(), id);
      if cancel == Some(id) {
        active := false;
        cancel := None;
      }
      running := running - {id};
    }

    /** `handleConn` (daemon.go:72-112), serving any state the daemon can
        reach, the uncontrollable ones included; when no other connection
        interleaves, it keeps a controllable daemon controllable. */
    method HandleConn(data: string) returns (reply: Option<string>)
      modifies this
      ensures (State(), reply) == Handle(old(State()), data)
      ensures Controllable(old(State())) ==> Controllable(State())
    {
      if Controllable(State()) {
        HandleSpec(State(), data);
      }
      var parsed := ParseCommand(data);
      if parsed.None? {
        return None;
      }
      var cmd := parsed.value;
      if cmd == "toggle" {
        var wasActive := active;
        if wasActive {
          StopDictation();
          reply := Some("stopped\n");
        } else {
          var _ := StartDictation();
          reply := Some("started\n");
        }
      } else if cmd == "status" {
        reply := Some(if active then "active\n" else "idle\n");
      } else {
        reply := Some("unknown command: " + cmd + "\n");
      }
    }
  }

  /** The lost session, replayed on the daemon object with the cleanup as
      written. The daemon still serves commands there: `status` says idle,
      and `toggle` starts yet another session while session 1 keeps running
      uncancelled. */
  method StaleEndScenario() returns (d: Daemon, status: Option<string>, toggled: Option<string>)
    ensures status == Some("idle\n") && toggled == Some("started\n")
    ensures !Controllable(d.State())
    ensures 1 in d.State().running && 1 !in d.State().cancelled && d.State().cancel == Some(2)
  {
    d := new Daemon();
    var first := d.StartDictation();
    d.StopDictation();
    var second := d.StartDictation();
    d.SessionEndedAsWritten(first);
    StaleEndLosesSession();
    assert ParseCommand("status") == Some("status") by {
      assert "status"[..6] == "status";
    }
    assert ParseCommand("toggle") == Some("toggle") by {
      assert "toggle"[..6] == "toggle";
    }
    status := d.HandleConn("status");
    toggled := d.HandleConn("toggle");
  }
}
