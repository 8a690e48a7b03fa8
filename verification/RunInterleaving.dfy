/** Any number of operations in flight at once, on any number of replicas, interleaved
    call by call. Only single calls are atomic here. */
module RunInterleaving {
  import opened Options
  import opened Runs
  import opened RunSafety
  import opened RunCalls

  // ----- Any number in flight

  /** What is left to do of each operation that has begun. */
  datatype System = System(world: World, flights: seq<seq<Call>>)

  datatype Move = Begin(e: Event) | Advance(j: nat)

  function SystemStep(s: System, m: Move): System
  {
    match m
    case Begin(e) => System(Minted(s.world, e), s.flights + [Calls(e)])
    case Advance(j) =>
      if j >= |s.flights| || s.flights[j] == [] then s
      else
        var c := s.flights[j][0];
        System(Do(s.world, c), s.flights[j := Next(s.world, c) + s.flights[j][1..]])
  }

  ghost predicate Inserts(cs: seq<Call>, id: string)
  {
    exists i :: 0 <= i < |cs| && cs[i].InsertRow? && cs[i].id == id
  }

  /** A launch draws ids that neither the store nor another launch in flight has seen. */
  ghost predicate FreshBegin(s: System, m: Move)
  {
    m.Begin? ==>
      && FreshIds(s.world, m.e)
      && (m.e.LaunchEvent? ==>
            forall j :: 0 <= j < |s.flights| ==> !Inserts(s.flights[j], m.e.launch.runId))
  }

  function SystemRun(moves: seq<Move>): System
  {
    if moves == [] then System(EMPTY, []) else SystemStep(SystemRun(moves[..|moves|-1]), moves[|moves|-1])
  }

  ghost predicate AllFreshBegins(moves: seq<Move>)
  {
    moves == [] ||
    (AllFreshBegins(moves[..|moves|-1]) && FreshBegin(SystemRun(moves[..|moves|-1]), moves[|moves|-1]))
  }

  // ----- The invariant

  /** Revoked, or refused to be. */
  ghost predicate Spent(w: World, k: string)
  {
    k in w.minted && (k !in w.live || k in w.refused)
  }

  ghost predicate Revokes(cs: seq<Call>, k: string)
  {
    exists i :: 0 <= i < |cs| && cs[i].RevokeKey? && cs[i].key == k
  }

  /** The key has been dealt with, or the calls to come will. */
  ghost predicate Minded(w: World, cs: seq<Call>, k: string)
  {
    k == "" || Spent(w, k) || Revokes(cs, k)
  }

  /** A call that takes from row id its reason to hold a key. */
  ghost predicate Releases(c: Call, id: string)
  {
    || (c.WriteRow? && c.id == id && Settled(c.p.status) && !c.note.Born?)
    || (c.ClearRef? && c.id == id)
    || (c.RemoveRow? && c.id == id)
  }

  /** The row's key is minded; so is the key of a row these calls have yet to insert. */
  ghost predicate Guarded(w: World, cs: seq<Call>, id: string)
  {
    || (id in w.used && (id in w.rows ==> Minded(w, cs, w.rows[id].vkey)))
    || (Inserts(cs, id) && forall i :: 0 <= i < |cs| && cs[i].InsertRow? ==> Minded(w, cs, cs[i].run.vkey))
  }

  ghost predicate FlightOk(w: World, cs: seq<Call>)
  {
    && (forall i :: 0 <= i < |cs| && cs[i].InsertRow? ==>
          && cs[i].id !in w.used && !Settled(cs[i].run.status)
          && (cs[i].run.vkey != "" ==> cs[i].run.vkey in w.minted))
    && (forall i, j :: 0 <= i < j < |cs| && cs[i].InsertRow? ==> !cs[j].InsertRow?)
    && (forall i, id :: 0 <= i < |cs| && Releases(cs[i], id) ==> Guarded(w, cs, id))
  }

  ghost predicate RowsOk(w: World)
  {
    && w.rows.Keys <= w.used && w.live <= w.minted && "" !in w.minted
    && (forall id :: id in w.rows && w.rows[id].vkey != "" ==> w.rows[id].vkey in w.minted)
  }

  /** Some operation in flight will revoke the key or insert the row that holds it. */
  ghost predicate InHand(flights: seq<seq<Call>>, k: string)
  {
    exists j :: 0 <= j < |flights| && (Revokes(flights[j], k) || Carries(flights[j], k))
  }

  ghost predicate Carries(cs: seq<Call>, k: string)
  {
    exists i :: 0 <= i < |cs| && cs[i].InsertRow? && cs[i].run.vkey == k
  }

  ghost predicate KeysHeld(s: System)
  {
    forall k :: k in s.world.live ==>
      k in s.world.refused || (exists id :: Holds(s.world, id, k)) || InHand(s.flights, k)
  }

  ghost predicate SystemOk(s: System)
  {
    && RowsOk(s.world) && KeysHeld(s)
    && (forall j :: 0 <= j < |s.flights| ==> FlightOk(s.world, s.flights[j]))
    && (forall i, j, id :: 0 <= i < j < |s.flights| && Inserts(s.flights[i], id) ==> !Inserts(s.flights[j], id))
  }

  // ----- What a call does to the others

  /** History grows, rows in use keep or lose their key or go, spent keys stay spent. */
  ghost predicate Evolves(w: World, w2: World)
  {
    && w.used <= w2.used && w.minted <= w2.minted && w.refused <= w2.refused && w.bornSettled <= w2.bornSettled
    && (forall x :: x in w2.rows && x in w.used ==>
          x in w.rows && (w2.rows[x].vkey == w.rows[x].vkey || w2.rows[x].vkey == ""))
    && (forall k :: k in w2.live ==> k in w.live || k !in w.minted)
  }

  lemma DoEvolves(w: World, c: Call)
    requires RowsOk(w)
    requires c.InsertRow? ==> c.id !in w.used && (c.run.vkey != "" ==> c.run.vkey in w.minted)
    ensures Evolves(w, Do(w, c)) && RowsOk(Do(w, c))
    ensures Do(w, c).used == if c.InsertRow? then w.used + {c.id} else w.used
    ensures Do(w, c).minted == w.minted
  {
    hide Without, Applied, UpdateProgress, ClearVKey;
    match c
    case WriteRow(id, p, ok, _) => WriteFrame(w, id, p, ok, true); AppliedKey(w, id, p);
    case ClearRef(id, ok) => ClearFrame(w, id, ok);
    case _ =>
  }

  lemma ClearFrame(w: World, id: string, ok: bool)
    ensures var w1 := ClearVKey(w, id, ok);
            && w1 == w.(rows := w1.rows, order := w1.order)
            && w1.rows == (if ok && id in w.rows then w.rows[id := w.rows[id].(vkey := "")] else w.rows)
  {
    hide Without;
  }

  lemma AppliedKey(w: World, id: string, p: Progress)
    ensures id in w.rows ==> Applied(w.rows[id], p).vkey == w.rows[id].vkey && Applied(w.rows[id], p).status == p.status
  {
  }

  lemma MindedStays(w: World, w2: World, cs: seq<Call>, k: string)
    requires Evolves(w, w2) && Minded(w, cs, k)
    ensures Minded(w2, cs, k)
  {
  }

  /** A flight that does not move stays well. */
  lemma FlightStays(w: World, w2: World, cs: seq<Call>)
    requires Evolves(w, w2) && FlightOk(w, cs)
    requires forall i :: 0 <= i < |cs| && cs[i].InsertRow? ==> cs[i].id !in w2.used
    ensures FlightOk(w2, cs)
  {
    hide Evolves, Minded, Releases;
    forall i, id | 0 <= i < |cs| && Releases(cs[i], id) ensures Guarded(w2, cs, id) {
      GuardStays(w, w2, cs, id);
    }
    assert w.minted <= w2.minted by { EvolvesMinted(w, w2); }
  }

  lemma EvolvesMinted(w: World, w2: World)
    requires Evolves(w, w2)
    ensures w.minted <= w2.minted
  {
  }

  lemma GuardStays(w: World, w2: World, cs: seq<Call>, id: string)
    requires Evolves(w, w2) && Guarded(w, cs, id)
    ensures Guarded(w2, cs, id)
  {
    hide Spent, Revokes, Inserts;
    if id in w.used && (id in w.rows ==> Minded(w, cs, w.rows[id].vkey)) {
      if id in w2.rows {
        MindedStays(w, w2, cs, w.rows[id].vkey);
      }
    } else {
      forall i | 0 <= i < |cs| && cs[i].InsertRow? ensures Minded(w2, cs, cs[i].run.vkey) {
        MindedStays(w, w2, cs, cs[i].run.vkey);
      }
    }
  }

  /** Once its first call is made, a key that was minded is so by the calls left. */
  lemma MindedPops(w: World, cs: seq<Call>, more: seq<Call>, k: string)
    requires RowsOk(w) && cs != [] && Evolves(w, Do(w, cs[0])) && Minded(w, cs, k) && (k != "" ==> k in w.minted)
    requires cs[0].InsertRow? ==> cs[0].id !in w.used
    ensures Minded(Do(w, cs[0]), more + cs[1..], k)
  {
    hide Evolves, UpdateProgress, ClearVKey, DeleteRow, Stop, Create;
    var rest := more + cs[1..];
    if k != "" && !Spent(w, k) {
      var i :| 0 <= i < |cs| && cs[i].RevokeKey? && cs[i].key == k;
      if i > 0 {
        assert rest[|more| + i - 1] == cs[i];
      }
    } else if k != "" {
      SpentStays(w, Do(w, cs[0]), k);
    }
  }

  lemma SpentStays(w: World, w2: World, k: string)
    requires Evolves(w, w2) && Spent(w, k)
    ensures Spent(w2, k)
  {
  }

  /** The calls that a read adds mind the key of the row that was read. */
  ghost predicate Fitting(w: World, more: seq<Call>)
  {
    && (forall i :: 0 <= i < |more| ==> !more[i].InsertRow?)
    && (forall i, id :: 0 <= i < |more| && Releases(more[i], id) ==>
          id in w.rows && (w.rows[id].vkey == "" || Revokes(more, w.rows[id].vkey)))
  }

  lemma NextFitting(w: World, c: Call)
    ensures Fitting(w, Next(w, c))
  {
    hide PollCalls, Batch, CanCancel;
    match c
    case ReadToCancel(id, e) =>
      if CanCancel(w, id, e) {
        Cancellable(w, id, e);
        assert CancelCalls(id, w.rows[id], e)[1] == RevokeKey(w.rows[id].vkey, e.revokeOk);
      }
    case ReadToDelete(id, e) =>
      if e.getOk && id in w.rows {
        var cs := DeleteCalls(id, w.rows[id], e);
        assert cs[|cs|-2] == RevokeKey(w.rows[id].vkey, e.revokeOk);
      }
    case ListToPoll(_, readings, watching) => PollFitting(w, Batch(w), readings, watching);
    case _ =>
  }

  lemma ApplyFitting(w: World, id: string, reading: Reading, watching: bool)
    requires id in w.rows
    ensures Fitting(w, ApplyCalls(id, w.rows[id], reading, watching))
  {
    hide NormalizeStatus;
    var cs := ApplyCalls(id, w.rows[id], reading, watching);
    if reading.Read? && Settled(PollProgress(w.rows[id], reading.ev).status) && w.rows[id].vkey != "" {
      assert cs[0] == RevokeKey(w.rows[id].vkey, reading.revokeOk);
    }
  }

  lemma FittingApp(w: World, a: seq<Call>, b: seq<Call>)
    requires Fitting(w, a) && Fitting(w, b)
    ensures Fitting(w, a + b)
  {
    hide Releases;
    var cs := a + b;
    forall i, id | 0 <= i < |cs| && Releases(cs[i], id)
      ensures id in w.rows && (w.rows[id].vkey == "" || Revokes(cs, w.rows[id].vkey))
    {
      if i < |a| {
        assert Releases(a[i], id);
        if w.rows[id].vkey != "" {
          RevokesMore(a, b, w.rows[id].vkey);
        }
      } else {
        assert Releases(b[i - |a|], id);
        if w.rows[id].vkey != "" {
          RevokesMore(a, b, w.rows[id].vkey);
        }
      }
    }
  }

  lemma RevokesMore(a: seq<Call>, b: seq<Call>, k: string)
    ensures Revokes(a + b, k) <==> Revokes(a, k) || Revokes(b, k)
  {
    if i :| 0 <= i < |a| && a[i].RevokeKey? && a[i].key == k {
      assert (a + b)[i] == a[i];
    }
    if i :| 0 <= i < |b| && b[i].RevokeKey? && b[i].key == k {
      assert (a + b)[|a| + i] == b[i];
    }
  }

  lemma {:induction false} PollFitting(w: World, ids: seq<string>, readings: map<string, Reading>, watching: bool)
    ensures Fitting(w, PollCalls(w, ids, readings, watching))
  {
    hide Fitting, ApplyCalls;
    if ids == [] {
      NoneFitting(w);
    } else {
      var n := |ids| - 1;
      PollFitting(w, ids[..n], readings, watching);
      if ids[n] in w.rows {
        var reading := ReadingOf(readings, ids[n]);
        ApplyFitting(w, ids[n], reading, watching);
        FittingApp(w, PollCalls(w, ids[..n], readings, watching),
                   ApplyCalls(ids[n], w.rows[ids[n]], reading, watching));
      } else {
        assert PollCalls(w, ids[..n], readings, watching) + [] == PollCalls(w, ids[..n], readings, watching);
      }
    }
  }

  lemma NoneFitting(w: World)
    ensures Fitting(w, [])
  {
  }

  // ----- A call in its own flight

  lemma HeadAllowed(w: World, cs: seq<Call>)
    requires FlightOk(w, cs) && cs != [] && cs[0].InsertRow?
    ensures cs[0].id !in w.used && !Settled(cs[0].run.status) && (cs[0].run.vkey != "" ==> cs[0].run.vkey in w.minted)
    ensures forall i :: 1 <= i < |cs| ==> !cs[i].InsertRow?
  {
  }

  lemma ReadsChangeNothing(w: World, c: Call)
    ensures Next(w, c) != [] ==> Do(w, c) == w
  {
  }

  lemma EvolvesRow(w: World, w2: World, id: string)
    requires Evolves(w, w2) && id in w.used
    ensures id in w2.used
    ensures id in w2.rows ==> id in w.rows && (w2.rows[id].vkey == w.rows[id].vkey || w2.rows[id].vkey == "")
  {
  }

  lemma InsertedRow(w: World, c: Call)
    requires c.InsertRow?
    ensures var w2 := Do(w, c);
            && c.id in w2.used && w2.rows == w.rows[c.id := c.run] && w2.bornSettled == w.bornSettled
  {
    hide Without;
  }

  lemma NoKeyMinded(w: World, cs: seq<Call>)
    ensures Minded(w, cs, "")
  {
  }

  /** The calls left over mind what the whole flight did. */
  lemma TailGuarded(w: World, cs: seq<Call>, more: seq<Call>, id: string)
    requires RowsOk(w) && FlightOk(w, cs) && cs != [] && Guarded(w, cs, id)
    requires Evolves(w, Do(w, cs[0])) && forall i :: 0 <= i < |more| ==> !more[i].InsertRow?
    ensures Guarded(Do(w, cs[0]), more + cs[1..], id)
  {
    hide Evolves, Minded, Do, Releases, Settled;
    var w2, rest := Do(w, cs[0]), more + cs[1..];
    if id in w.used && (id in w.rows ==> Minded(w, cs, w.rows[id].vkey)) {
      EvolvesRow(w, w2, id);
      if id in w2.rows {
        MindedPops(w, cs, more, w.rows[id].vkey);
        NoKeyMinded(w2, rest);
      }
    } else {
      var i :| 0 <= i < |cs| && cs[i].InsertRow? && cs[i].id == id;
      MindedPops(w, cs, more, cs[i].run.vkey);
      if i == 0 {
        InsertedRow(w, cs[0]);
      } else {
        assert rest[|more| + i - 1] == cs[i];
      }
    }
  }

  lemma OwnFlightOk(w: World, cs: seq<Call>)
    requires RowsOk(w) && FlightOk(w, cs) && cs != []
    ensures FlightOk(Do(w, cs[0]), Next(w, cs[0]) + cs[1..])
  {
    hide Do, Next, Evolves, Releases, Settled, Guarded;
    var c, more := cs[0], Next(w, cs[0]);
    var w2, rest := Do(w, c), more + cs[1..];
    if c.InsertRow? {
      HeadAllowed(w, cs);
    }
    DoEvolves(w, c);
    NextFitting(w, c);
    forall i, id | 0 <= i < |rest| && Releases(rest[i], id) ensures Guarded(w2, rest, id) {
      if i < |more| {
        ReadsChangeNothing(w, c);
        NewGuarded(w, more, cs[1..], id, i);
      } else {
        assert Releases(cs[i - |more| + 1], id);
        TailGuarded(w, cs, more, id);
      }
    }
  }

  lemma NewGuarded(w: World, more: seq<Call>, rest: seq<Call>, id: string, i: nat)
    requires RowsOk(w) && Fitting(w, more) && i < |more| && Releases(more[i], id)
    ensures Guarded(w, more + rest, id)
  {
    hide Releases;
    if w.rows[id].vkey != "" {
      RevokesMore(more, rest, w.rows[id].vkey);
    }
  }

  lemma InsertsFewer(w: World, cs: seq<Call>, id: string)
    requires cs != [] && Inserts(Next(w, cs[0]) + cs[1..], id)
    ensures Inserts(cs, id)
  {
    hide Next, Releases;
    NextFitting(w, cs[0]);
    var more := Next(w, cs[0]);
    var i :| 0 <= i < |more + cs[1..]| && (more + cs[1..])[i].InsertRow? && (more + cs[1..])[i].id == id;
    assert (more + cs[1..])[i] == cs[i - |more| + 1];
  }

  // ----- A key through one call

  /** A row that holds the key still does, or the key is minded. */
  lemma HolderReleases(w: World, cs: seq<Call>, id: string, k: string)
    requires RowsOk(w) && FlightOk(w, cs) && cs != [] && Holds(w, id, k) && k in w.live
    ensures Holds(Do(w, cs[0]), id, k) || Minded(w, cs, k)
  {
    hide Without, Applied, UpdateProgress, ClearVKey, Revokes, Spent, NormalizeStatus;
    var c := cs[0];
    assert Releases(c, id) ==> Guarded(w, cs, id);
    if !Releases(c, id) {
      match c
      case WriteRow(x, p, ok, _) => WriteFrame(w, x, p, ok, true); AppliedKey(w, x, p);
      case ClearRef(x, ok) => ClearFrame(w, x, ok);
      case _ =>
    }
  }

  lemma MindedInHand(s: System, j: nat, k: string)
    requires RowsOk(s.world) && j < |s.flights| && FlightOk(s.world, s.flights[j]) && s.flights[j] != []
    requires Minded(s.world, s.flights[j], k) && k in s.world.live
    ensures var s2 := SystemStep(s, Advance(j));
            k in s2.world.live ==> k in s2.world.refused || InHand(s2.flights, k)
  {
    hide Do, Next, FlightOk, Evolves, Revokes;
    var w, cs := s.world, s.flights[j];
    var more := Next(w, cs[0]);
    assert cs[0].InsertRow? ==> cs[0].id !in w.used && (cs[0].run.vkey != "" ==> cs[0].run.vkey in w.minted) by {
      if cs[0].InsertRow? {
        HeadAllowed(w, cs);
      }
    }
    DoEvolves(w, cs[0]);
    MindedPops(w, cs, more, k);
    var s2 := SystemStep(s, Advance(j));
    assert s2.flights[j] == more + cs[1..];
  }

  lemma CarriedInHand(s: System, j: nat, k: string)
    requires RowsOk(s.world) && j < |s.flights| && FlightOk(s.world, s.flights[j]) && s.flights[j] != []
    requires Carries(s.flights[j], k)
    ensures var s2 := SystemStep(s, Advance(j));
            (exists id :: Holds(s2.world, id, k)) || InHand(s2.flights, k)
  {
    hide Do, Next, Settled;
    var w, cs := s.world, s.flights[j];
    var s2 := SystemStep(s, Advance(j));
    var i :| 0 <= i < |cs| && cs[i].InsertRow? && cs[i].run.vkey == k;
    if i == 0 {
      InsertedRow(w, cs[0]);
      assert Holds(s2.world, cs[0].id, k);
    } else {
      assert s2.flights[j][|Next(w, cs[0])| + i - 1] == cs[i];
      assert Carries(s2.flights[j], k);
    }
  }

  lemma AdvanceKeepsKeys(s: System, j: nat)
    requires SystemOk(s) && j < |s.flights| && s.flights[j] != []
    ensures KeysHeld(SystemStep(s, Advance(j)))
  {
    hide Do, Next, FlightOk, Holds, Revokes, Carries, Evolves;
    var w, cs, s2 := s.world, s.flights[j], SystemStep(s, Advance(j));
    HeadFresh(w, cs);
    DoEvolves(w, cs[0]);
    EvolvesKeys(w, s2.world);
    forall k | k in s2.world.live
      ensures k in s2.world.refused || (exists id :: Holds(s2.world, id, k)) || InHand(s2.flights, k)
    {
      if id :| Holds(w, id, k) {
        HolderReleases(w, cs, id, k);
        if !Holds(s2.world, id, k) {
          MindedInHand(s, j, k);
        }
      } else if k !in w.refused {
        var i :| 0 <= i < |s.flights| && (Revokes(s.flights[i], k) || Carries(s.flights[i], k));
        if i != j {
          assert s2.flights[i] == s.flights[i];
        } else if Revokes(cs, k) {
          MindedInHand(s, j, k);
        } else {
          CarriedInHand(s, j, k);
        }
      }
    }
  }

  lemma HeadFresh(w: World, cs: seq<Call>)
    requires FlightOk(w, cs) && cs != []
    ensures cs[0].InsertRow? ==> cs[0].id !in w.used && (cs[0].run.vkey != "" ==> cs[0].run.vkey in w.minted)
  {
  }

  lemma EvolvesKeys(w: World, w2: World)
    requires Evolves(w, w2) && RowsOk(w) && RowsOk(w2) && w2.minted == w.minted
    ensures w2.live <= w.live && w.refused <= w2.refused
  {
  }

  // ----- Every interleaving

  lemma AdvanceOk(s: System, j: nat)
    requires SystemOk(s) && j < |s.flights| && s.flights[j] != []
    ensures SystemOk(SystemStep(s, Advance(j)))
  {
    hide Do, Next, FlightOk, KeysHeld, Evolves, Inserts;
    var w, cs, s2 := s.world, s.flights[j], SystemStep(s, Advance(j));
    AdvanceKeepsKeys(s, j);
    HeadFresh(w, cs);
    DoEvolves(w, cs[0]);
    OwnFlightOk(w, cs);
    forall i | 0 <= i < |s.flights| && i != j ensures FlightOk(s2.world, s.flights[i]) {
      OthersInsert(s, i, j);
      FlightStays(w, s2.world, s.flights[i]);
    }
    forall id | Inserts(s2.flights[j], id) ensures Inserts(cs, id) {
      InsertsFewer(w, cs, id);
    }
  }

  lemma OthersInsert(s: System, i: nat, j: nat)
    requires SystemOk(s) && i < |s.flights| && j < |s.flights| && i != j && s.flights[j] != []
    ensures var c := s.flights[j][0];
            forall n :: 0 <= n < |s.flights[i]| && s.flights[i][n].InsertRow? ==>
              s.flights[i][n].id !in s.world.used && (c.InsertRow? ==> s.flights[i][n].id != c.id)
  {
    hide KeysHeld, Releases;
    var a, b := s.flights[i], s.flights[j];
    forall n | 0 <= n < |a| && a[n].InsertRow? && b[0].InsertRow? ensures a[n].id != b[0].id {
      assert Inserts(a, a[n].id) && Inserts(b, b[0].id);
    }
  }

  /** A launch that has minted its key will insert the row that holds it or revoke it. */
  lemma LaunchFlightOk(w: World, s: LaunchSpec, e: LaunchEnv)
    requires FreshIds(w, LaunchEvent(s, e))
    ensures var w2, cs := Minted(w, LaunchEvent(s, e)), LaunchCalls(s, e);
            && FlightOk(w2, cs)
            && (Admitted(s, e) && s.viaGateway ==> Revokes(cs, e.key.value) || Carries(cs, e.key.value))
            && forall id :: Inserts(cs, id) ==> id == e.runId
  {
    hide Validate, NormalizeStatus, Recorded, StartedProgress;
    var w2, cs := Minted(w, LaunchEvent(s, e)), LaunchCalls(s, e);
    if Admitted(s, e) {
      var vkey := if s.viaGateway then e.key.value else "";
      if !Recorded(s, e) {
        assert cs[0].key == vkey;
      } else {
        assert cs[0].run.vkey == vkey && Inserts(cs, e.runId);
        assert e.reply.Refused? ==> cs[2] == RevokeKey(vkey, e.revokeOk);
      }
    }
  }

  lemma BeginFlight(w: World, e: Event)
    requires FreshIds(w, e)
    ensures FlightOk(Minted(w, e), Calls(e))
    ensures Minted(w, e) != w ==> Revokes(Calls(e), e.launch.key.value) || Carries(Calls(e), e.launch.key.value)
    ensures forall id :: Inserts(Calls(e), id) ==> e.LaunchEvent? && id == e.launch.runId
  {
    hide FlightOk, LaunchCalls, Revokes, Carries, FreshIds;
    match e
    case LaunchEvent(s, env) => LaunchFlightOk(w, s, env);
    case _ => ReadFlightOk(w, Calls(e)[0]);
  }

  lemma ReadFlightOk(w: World, c: Call)
    requires c.ReadToCancel? || c.ReadToDelete? || c.ListToPoll?
    ensures FlightOk(w, [c]) && forall id :: !Inserts([c], id)
  {
  }

  lemma MintEvolves(w: World, e: Event)
    requires RowsOk(w) && FreshIds(w, e)
    ensures var w2 := Minted(w, e);
            && Evolves(w, w2) && RowsOk(w2) && w2.used == w.used && w2.rows == w.rows
            && w2.refused == w.refused && w2.bornSettled == w.bornSettled
            && w2.live == if w2 == w then w.live else w.live + {e.launch.key.value}
  {
    hide Validate;
  }

  lemma BeginKeepsKeys(s: System, e: Event)
    requires SystemOk(s) && FreshBegin(s, Begin(e))
    ensures KeysHeld(SystemStep(s, Begin(e)))
  {
    hide FlightOk, Calls, Revokes, Carries, Minted, FreshIds, Settled, RowsOk, Inserts, Evolves;
    var w, s2 := s.world, SystemStep(s, Begin(e));
    var n := |s.flights|;
    BeginFlight(w, e);
    MintEvolves(w, e);
    assert s2.flights[n] == Calls(e);
    forall k | k in s2.world.live
      ensures k in s2.world.refused || (exists id :: Holds(s2.world, id, k)) || InHand(s2.flights, k)
    {
      if k in w.live && k !in w.refused {
        if id :| Holds(w, id, k) {
          assert Holds(s2.world, id, k);
        } else {
          var i :| 0 <= i < n && (Revokes(s.flights[i], k) || Carries(s.flights[i], k));
          assert s2.flights[i] == s.flights[i];
        }
      }
    }
  }

  lemma BeginOk(s: System, e: Event)
    requires SystemOk(s) && FreshBegin(s, Begin(e))
    ensures SystemOk(SystemStep(s, Begin(e)))
  {
    hide Calls, KeysHeld, Minted, FreshIds, Evolves, Inserts, Guarded, Releases;
    var w, s2 := s.world, SystemStep(s, Begin(e));
    BeginKeepsKeys(s, e);
    BeginFlight(w, e);
    MintEvolves(w, e);
    forall i | 0 <= i < |s.flights| ensures FlightOk(s2.world, s.flights[i]) {
      FlightStays(w, s2.world, s.flights[i]);
    }
  }

  /** Whatever operations are in flight and however their calls interleave, a live key is
      held by a row, or was refused revocation, or an operation in flight will insert its
      row or revoke it. */
  lemma {:induction false} InterleavedCallsLoseNoKey(moves: seq<Move>)
    requires AllFreshBegins(moves)
    ensures SystemOk(SystemRun(moves)) && KeysHeld(SystemRun(moves))
  {
    hide SystemStep, SystemOk, FreshBegin, KeysHeld;
    if moves == [] {
      NothingInFlight();
    } else {
      var before, m := SystemRun(moves[..|moves|-1]), moves[|moves|-1];
      InterleavedCallsLoseNoKey(moves[..|moves|-1]);
      if m.Begin? {
        BeginOk(before, m.e);
      } else if m.j < |before.flights| && before.flights[m.j] != [] {
        AdvanceOk(before, m.j);
      } else {
        NothingToDo(before, m.j);
      }
      OkHolds(SystemStep(before, m));
    }
  }

  lemma NothingInFlight()
    ensures SystemOk(System(EMPTY, [])) && KeysHeld(System(EMPTY, []))
  {
  }

  lemma NothingToDo(s: System, j: nat)
    requires j >= |s.flights| || s.flights[j] == []
    ensures SystemStep(s, Advance(j)) == s
  {
  }

  lemma OkHolds(s: System)
    requires SystemOk(s)
    ensures KeysHeld(s)
  {
  }

  /** Once every operation has finished, no live key is stray. */
  lemma FinishedCallsLeaveNoStrayKey(moves: seq<Move>)
    requires AllFreshBegins(moves)
    requires forall j :: 0 <= j < |SystemRun(moves).flights| ==> SystemRun(moves).flights[j] == []
    ensures NoStrayKey(SystemRun(moves).world)
  {
    hide SystemRun, AllFreshBegins, SystemOk;
    InterleavedCallsLoseNoKey(moves);
  }
}
