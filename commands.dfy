/** The operator commands of telegram_commands.py: the admin check, the
    pause and resume flag, the persistent leverage and mode switches, and
    the panic protocol. Replies, the bot transport, the status text and the
    restart are left out. */
module Commands {
  import opened Py
  import opened Exchange
  import opened Execution

  // ---------------------------------------------------------------------
  // Admin check and argument rules
  // ---------------------------------------------------------------------

  /** `check_admin`: the chat's id, as decimal text, must equal the
      configured chat id text. */
  predicate CheckAdmin(chatId: int, configuredChatId: string) {
    IntToString(chatId) == configuredChatId
  }

  /** A configured numeral admits exactly the one chat it names. */
  lemma AdminIsOneChat(configuredChatId: string, admin: int, chatId: int)
    requires configuredChatId == IntToString(admin)
    ensures CheckAdmin(chatId, configuredChatId) <==> chatId == admin
  {
    if CheckAdmin(chatId, configuredChatId) {
      IntToStringInjective(chatId, admin);
    }
  }

  /** The leverage `/leverage` asks for: None for a missing argument or one
      that is not all ASCII digits; otherwise `int(args[0])`. */
  function LeverageFromArgs(args: seq<string>): (r: Option<nat>)
    ensures r.Some? <==> |args| > 0 && IsDigits(args[0])
  {
    if |args| > 0 && IsDigits(args[0]) then Some(ParseDigits(args[0])) else None
  }

  /** The mode `/mode` asks for: Some(true) for "dry_run", Some(false) for
      "real", in any letter case, and None otherwise. */
  function ModeFromArgs(args: seq<string>): (r: Option<bool>)
    ensures r.Some? <==> |args| > 0 && (Lower(args[0]) == "dry_run" || Lower(args[0]) == "real")
    ensures r.Some? ==> (r.value <==> Lower(args[0]) == "dry_run")
  {
    if |args| == 0 then None
    else
      var modeStr := Lower(args[0]);
      if modeStr == "dry_run" || modeStr == "real" then Some(modeStr == "dry_run") else None
  }

  /** `is_dry.capitalize()`: the text persisted for the mode. */
  function ModeText(dryRun: bool): (t: string)
    ensures t == "True" || t == "False"
  {
    if dryRun then "True" else "False"
  }

  /** The persisted leverage text is read back by the settings loader's
      `int(...)` as the leverage just set, which loses any leading zeros
      of the argument. */
  lemma LeveragePersistRoundTrip(args: seq<string>)
    requires LeverageFromArgs(args).Some?
    ensures ParseInt(IntToString(LeverageFromArgs(args).value)) == Some(LeverageFromArgs(args).value as int)
  {
    IntToStringRoundTrip(LeverageFromArgs(args).value);
  }

  /** The persisted mode text is read back by the settings loader's
      `.lower() == "true"` as the mode just set. */
  lemma ModePersistRoundTrip(dryRun: bool)
    ensures (Lower(ModeText(dryRun)) == "true") <==> dryRun
  {
    if !dryRun {
      assert Lower("False")[0] == 'f';
    }
  }

  /** "0" passes the digit check; a sign, a blank or a unit does not; the
      mode is read case-insensitively. */
  lemma ArgumentExamples()
    ensures LeverageFromArgs(["0"]) == Some(0)
    ensures LeverageFromArgs(["007"]) == Some(7)
    ensures LeverageFromArgs([]) == None && LeverageFromArgs([""]) == None
    ensures LeverageFromArgs(["-5"]) == None && LeverageFromArgs(["5x"]) == None
    ensures ModeFromArgs(["DRY_RUN"]) == Some(true) && ModeFromArgs(["Real"]) == Some(false)
    ensures ModeFromArgs(["paper"]) == None && ModeFromArgs([]) == None
  {
    assert !IsDigitChar("-5"[0]);
    assert !IsDigitChar("5x"[1]);
    assert ParseDigits("007") == 7 by {
      assert "007"[..2] == "00" && "00"[..1] == "0" && "0"[..0] == "";
    }
    assert Lower("DRY_RUN") == "dry_run";
    assert Lower("Real") == "real";
    assert Lower("paper")[0] == 'p';
  }

  // ---------------------------------------------------------------------
  // The settings the commands change
  // ---------------------------------------------------------------------

  /** The runtime settings the handlers assign, and the `(name, value)`
      writes passed to `update_env_variable` (whose storage is not part of
      this model), oldest first. */
  class BotSettings {
    var isPaused: bool
    var leverage: int
    var dryRun: bool
    var envWrites: seq<(string, string)>

    constructor (paused: bool, leverage: int, dryRun: bool)
      ensures isPaused == paused && this.leverage == leverage && this.dryRun == dryRun
      ensures envWrites == []
    {
      isPaused := paused;
      this.leverage := leverage;
      this.dryRun := dryRun;
      envWrites := [];
    }

    /** `/pause`: an admin sets the pause flag. */
    method Pause(chatId: int, configuredChatId: string)
      modifies this
      ensures isPaused == (CheckAdmin(chatId, configuredChatId) || old(isPaused))
      ensures leverage == old(leverage) && dryRun == old(dryRun) && envWrites == old(envWrites)
    {
      if CheckAdmin(chatId, configuredChatId) {
        isPaused := true;
      }
    }

    /** `/resume` */
    method Resume(chatId: int, configuredChatId: string)
      modifies this
      ensures isPaused == (!CheckAdmin(chatId, configuredChatId) && old(isPaused))
      ensures leverage == old(leverage) && dryRun == old(dryRun) && envWrites == old(envWrites)
    {
      if CheckAdmin(chatId, configuredChatId) {
        isPaused := false;
      }
    }

    /** `/leverage N`: an admin's valid argument sets the leverage and
      persists its decimal text; anything else changes nothing. */
    method Leverage(chatId: int, configuredChatId: string, args: seq<string>) returns (applied: bool)
      modifies this
      ensures applied <==> CheckAdmin(chatId, configuredChatId) && LeverageFromArgs(args).Some?
      ensures applied ==> (leverage == LeverageFromArgs(args).value
        && envWrites == old(envWrites) + [("LEVERAGE", IntToString(leverage))])
      ensures !applied ==> leverage == old(leverage) && envWrites == old(envWrites)
      ensures isPaused == old(isPaused) && dryRun == old(dryRun)
    {
      if !CheckAdmin(chatId, configuredChatId) {
        return false;
      }
      var newLev := LeverageFromArgs(args);
      if newLev.None? {
        return false;
      }
      leverage := newLev.value;
      envWrites := envWrites + [("LEVERAGE", IntToString(newLev.value))];
      return true;
    }

    /** `/mode dry_run|real`: an admin's valid argument sets the mode and
      persists "True" or "False"; anything else changes nothing. */
    method Mode(chatId: int, configuredChatId: string, args: seq<string>) returns (applied: bool)
      modifies this
      ensures applied <==> CheckAdmin(chatId, configuredChatId) && ModeFromArgs(args).Some?
      ensures applied ==> (dryRun == ModeFromArgs(args).value
        && envWrites == old(envWrites) + [("DRY_RUN", ModeText(dryRun))])
      ensures !applied ==> dryRun == old(dryRun) && envWrites == old(envWrites)
      ensures isPaused == old(isPaused) && leverage == old(leverage)
    {
      if !CheckAdmin(chatId, configuredChatId) {
        return false;
      }
      var mode := ModeFromArgs(args);
      if mode.None? {
        return false;
      }
      dryRun := mode.value;
      envWrites := envWrites + [("DRY_RUN", ModeText(mode.value))];
      return true;
    }
  }

  // ---------------------------------------------------------------------
  // Panic
  // ---------------------------------------------------------------------

  /** What the panic protocol does, in order: setting the pause flag, and
      each request to the exchange. */
  datatype PanicEvent = PauseEntries | Request(call: ExchangeCall)

  function Requests(calls: seq<ExchangeCall>): (r: seq<PanicEvent>)
    ensures |r| == |calls| && forall i :: 0 <= i < |calls| ==> r[i] == Request(calls[i])
  {
    if calls == [] then [] else [Request(calls[0])] + Requests(calls[1..])
  }

  /** `set(active) | set(pending)`: the symbols panic cleans up. */
  function PanicTargets(activePositions: seq<string>, pendingEntries: map<string, PendingEntry>): (r: set<string>)
    ensures forall s :: s in r <==> s in activePositions || s in pendingEntries
  {
    (set s | s in activePositions) + pendingEntries.Keys
  }

  /** The cleanup requests for the targets: every target's open orders are
      cancelled, and its algo orders too once that cancel succeeded. */
  predicate IsCancelRequest(c: ExchangeCall, targets: set<string>, respond: ExchangeCall -> Outcome) {
    match c
    case CancelAllOrders(s) => s in targets
    case CancelAllAlgoOrders(s) => s in targets && respond(CancelAllOrders(s)).Ok?
    case _ => false
  }

  predicate NoRepeats(calls: seq<ExchangeCall>) {
    forall i, j :: 0 <= i < j < |calls| ==> calls[i] != calls[j]
  }

  /** The side that closes a position: sell a long, buy anything else. */
  function CloseSide(side: string): (r: string)
    ensures r == "sell" <==> side == "long"
    ensures r == "sell" || r == "buy"
  {
    if side == "long" then "sell" else "buy"
  }

  function CloseOrder(p: Position): ExchangeCall {
    CreateMarketOrder(p.symbol, CloseSide(p.side), p.contracts, true)
  }

  /** The close phase over the fetched positions: the market orders sent
      and `closed_count`. Only positions with contracts > 0 are closed; in
      dry run nothing is sent but they are still counted; in real mode the
      first rejected order ends the phase. */
  function PanicCloses(ps: seq<Position>, dryRun: bool, respond: ExchangeCall -> Outcome)
    : (r: (seq<ExchangeCall>, nat))
  {
    if ps == [] then ([], 0)
    else if !(ps[0].contracts > 0.0) then PanicCloses(ps[1..], dryRun, respond)
    else if dryRun then
      var rest := PanicCloses(ps[1..], dryRun, respond);
      (rest.0, rest.1 + 1)
    else if respond(CloseOrder(ps[0])).Err? then ([CloseOrder(ps[0])], 0)
    else
      var rest := PanicCloses(ps[1..], dryRun, respond);
      ([CloseOrder(ps[0])] + rest.0, rest.1 + 1)
  }

  /** The positions panic should close. */
  function OpenCount(ps: seq<Position>): (n: nat)
    ensures n <= |ps|
  {
    if ps == [] then 0 else (if ps[0].contracts > 0.0 then 1 else 0) + OpenCount(ps[1..])
  }

  /** Every close is a reduce-only market order on the opposite side of a
      fetched position with contracts; in dry run none is sent and every
      open position is counted; in real mode the count is the orders
      accepted, which is every open position when none is rejected. */
  lemma {:induction false} PanicClosesFacts(ps: seq<Position>, dryRun: bool, respond: ExchangeCall -> Outcome)
    ensures var r := PanicCloses(ps, dryRun, respond);
      && (forall c :: c in r.0 ==> exists p :: p in ps && p.contracts > 0.0 && c == CloseOrder(p))
      && (forall c :: c in r.0 ==> c.CreateMarketOrder? && c.reduceOnly && c.amount > 0.0)
      && (dryRun ==> r.0 == [] && r.1 == OpenCount(ps))
      && (!dryRun ==> r.1 <= |r.0| <= r.1 + 1 && r.1 <= OpenCount(ps))
      && (!dryRun && (forall p :: p in ps && p.contracts > 0.0 ==> respond(CloseOrder(p)).Ok?) ==>
            r.1 == |r.0| == OpenCount(ps))
  {
    if ps != [] {
      PanicClosesFacts(ps[1..], dryRun, respond);
      var r := PanicCloses(ps, dryRun, respond);
      var rest := PanicCloses(ps[1..], dryRun, respond);
      forall c | c in r.0
        ensures exists p :: p in ps && p.contracts > 0.0 && c == CloseOrder(p)
      {
        if c in rest.0 {
          var p :| p in ps[1..] && p.contracts > 0.0 && c == CloseOrder(p);
          assert p in ps;
        } else {
          assert c == CloseOrder(ps[0]);
        }
      }
    }
  }

  /** The cleanup phase: each target once, in the set's iteration order,
      which the model leaves open. */
  method PanicCancel(targets: set<string>, respond: ExchangeCall -> Outcome) returns (calls: seq<ExchangeCall>)
    ensures forall c :: c in calls <==> IsCancelRequest(c, targets, respond)
    ensures NoRepeats(calls)
  {
    var remaining := targets;
    calls := [];
    while remaining != {}
      invariant remaining <= targets
      invariant forall c :: c in calls <==> IsCancelRequest(c, targets - remaining, respond)
      invariant NoRepeats(calls)
      decreases |remaining|
    {
      var sym :| sym in remaining;
      var block := if respond(CancelAllOrders(sym)).Ok? then [CancelAllOrders(sym), CancelAllAlgoOrders(sym)]
                   else [CancelAllOrders(sym)];
      assert forall c :: c in block ==> c !in calls;
      assert NoRepeats(block);
      forall i, j | 0 <= i < j < |calls + block|
        ensures (calls + block)[i] != (calls + block)[j]
      {
        if j >= |calls| && i < |calls| {
          assert (calls + block)[j] in block;
          assert (calls + block)[i] in calls;
        }
      }
      calls := calls + block;
      remaining := remaining - {sym};
    }
  }

  /** The close phase as the command runs it. */
  method PanicClose(ps: seq<Position>, dryRun: bool, respond: ExchangeCall -> Outcome)
    returns (calls: seq<ExchangeCall>, closedCount: nat)
    ensures (calls, closedCount) == PanicCloses(ps, dryRun, respond)
  {
    calls := [];
    closedCount := 0;
    var i := 0;
    var stopped := false;
    assert ps[i..] == ps;
    assert calls + PanicCloses(ps, dryRun, respond).0 == PanicCloses(ps, dryRun, respond).0;
    while i < |ps| && !stopped
      invariant 0 <= i <= |ps|
      invariant stopped ==> (calls, closedCount) == PanicCloses(ps, dryRun, respond)
      invariant !stopped ==> var rest := PanicCloses(ps[i..], dryRun, respond);
        PanicCloses(ps, dryRun, respond) == (calls + rest.0, closedCount + rest.1)
      decreases |ps| - i, if stopped then 0 else 1
    {
      ghost var rest := ps[i..];
      assert rest[0] == ps[i] && rest[1..] == ps[i + 1..];
      ghost var next := PanicCloses(ps[i + 1..], dryRun, respond);
      var p := ps[i];
      if p.contracts > 0.0 {
        if !dryRun {
          var order := CloseOrder(p);
          if respond(order).Err? {
            assert PanicCloses(rest, dryRun, respond) == ([order], 0);
            stopped := true;
          } else {
            assert PanicCloses(rest, dryRun, respond) == ([order] + next.0, next.1 + 1);
            assert calls + ([order] + next.0) == (calls + [order]) + next.0;
          }
          calls := calls + [order];
        } else {
          assert PanicCloses(rest, dryRun, respond) == (next.0, next.1 + 1);
        }
        if !stopped {
          closedCount := closedCount + 1;
        }
      } else {
        assert PanicCloses(rest, dryRun, respond) == next;
      }
      i := i + 1;
    }
    if !stopped {
      assert ps[i..] == [];
      assert calls + [] == calls;
    }
  }

  /** `/panic`: an admin's request pauses new entries before any exchange
      request, cleans up the orders of every active or pending symbol, then
      closes what `fetch_positions` reported (None when it raised). It
      returns what happened in order and the closed count. */
  method PanicCmd(settings: BotSettings, engine: ExecutionEngine, chatId: int, configuredChatId: string,
                  positions: Option<seq<Position>>, respond: ExchangeCall -> Outcome)
    returns (events: seq<PanicEvent>, closedCount: nat)
    modifies settings
    ensures !CheckAdmin(chatId, configuredChatId) ==> events == [] && closedCount == 0 && settings.isPaused == old(settings.isPaused)
    ensures CheckAdmin(chatId, configuredChatId) ==> (
      && settings.isPaused
      && |events| >= 1 && events[0] == PauseEntries
      && exists cancels: seq<ExchangeCall> ::
           && (forall c :: c in cancels <==> IsCancelRequest(c, PanicTargets(engine.activePositions, engine.pendingEntries), respond))
           && NoRepeats(cancels)
           && var closes := if positions.Some? then PanicCloses(positions.value, settings.dryRun, respond) else ([], 0);
              events == [PauseEntries] + Requests(cancels + closes.0) && closedCount == closes.1)
    ensures settings.leverage == old(settings.leverage) && settings.dryRun == old(settings.dryRun)
    ensures settings.envWrites == old(settings.envWrites)
  {
    if !CheckAdmin(chatId, configuredChatId) {
      return [], 0;
    }
    settings.isPaused := true;
    var targets := PanicTargets(engine.activePositions, engine.pendingEntries);
    var cancels := PanicCancel(targets, respond);
    var closes: seq<ExchangeCall> := [];
    closedCount := 0;
    if positions.Some? {
      closes, closedCount := PanicClose(positions.value, settings.dryRun, respond);
    }
    events := [PauseEntries] + Requests(cancels + closes);
  }
}
