/** Plugin keys call by call: a lookup reads the vault and puts what it read into the cache
    in two steps, a set or a clear changes the cache and the vault in two, and other
    operations may come in between. */
module PluginRaces {
  import opened Options
  import opened PluginKeys
  import KeyRef

  /** The second step of an operation that has made its first. */
  datatype Pending =
    | Save(plugin: string, kv: Keys, ok: bool)
    | Erase(plugin: string, ok: bool)
    | Promote(plugin: string, kv: Keys)

  datatype Racing = Racing(now: State, pending: seq<Pending>)

  /** Load: boot loads one owner. Finish: one pending step is made. */
  datatype Move = Begin(e: Event) | Load(plugin: string) | Finish(i: nat)

  function Finished(s: State, x: Pending): State
  {
    match x
    case Save(p, kv, ok) =>
      if s.vault.Some? && ok then s.(vault := Some(AfterSave(s.vault.value, p, kv))) else s
    case Erase(p, ok) =>
      if s.vault.Some? && ok then s.(vault := Some(s.vault.value - {p})) else s
    case Promote(p, kv) => s.(cache := s.cache[p := kv])
  }

  /** The first step of an operation. */
  function Started(s: State, e: Event): State
  {
    match e
    case Set(p, kv, _) => s.(cache := Put(s.cache, p, Given(kv)))
    case Clear(p, _) => s.(cache := s.cache - {p})
    case Elsewhere(_, _) => Step(s, e)
    case _ => s
  }

  /** What a lookup that misses the cache has read and will promote. */
  function ReadFor(s: State, p: string, ok: bool): seq<Pending>
  {
    if PluginKeys.Load(s.cache, p) == map[] && Answer(s, p, ok).Some? then [Promote(p, Answer(s, p, ok).value)] else []
  }

  function Left(s: State, e: Event): seq<Pending>
  {
    match e
    case Set(p, kv, ok) => [Save(p, kv, ok)]
    case Clear(p, ok) => [Erase(p, ok)]
    case Get(p, ok) => ReadFor(s, p, ok)
    case Resolve(auth, ok) => if NeedsKeys(auth) then ReadFor(s, auth.secretRef, ok) else []
    case _ => []
  }

  function LeftByLoad(s: State, p: string): seq<Pending>
  {
    if s.vault.Some? && PluginKeys.Load(s.vault.value, p) != map[] then [Promote(p, s.vault.value[p])] else []
  }

  function RaceStep(r: Racing, m: Move): Racing
  {
    match m
    case Begin(e) => Racing(Started(r.now, e), r.pending + Left(r.now, e))
    case Load(p) => r.(pending := r.pending + LeftByLoad(r.now, p))
    case Finish(i) =>
      if i >= |r.pending| then r
      else Racing(Finished(r.now, r.pending[i]), r.pending[..i] + r.pending[i + 1..])
  }

  function RaceRun(vault: Table, moves: seq<Move>): Racing
  {
    if moves == [] then Racing(Fresh(vault), []) else RaceStep(RaceRun(vault, moves[..|moves|-1]), moves[|moves|-1])
  }

  function FinishAll(s: State, order: seq<Pending>): State
  {
    if order == [] then s else Finished(FinishAll(s, order[..|order|-1]), order[|order|-1])
  }

  /** With nothing in between, the two steps of an operation are the operation. */
  lemma StepsAloneAreTheOperation(s: State, e: Event)
    requires !e.Hydrate?
    ensures FinishAll(Started(s, e), Left(s, e)) == Step(s, e)
  {
    hide Given, Stored, AfterSave;
    var left := Left(s, e);
    if left != [] {
      assert left == [left[0]] && left[..0] == [];
      FinishOne(Started(s, e), left[0]);
    }
  }

  lemma FinishOne(s: State, x: Pending)
    ensures FinishAll(s, [x]) == Finished(s, x)
  {
    assert [x][..0] == [];
  }

  // ----- When cache and vault agree once everything has finished

  function Entry(table: Table, p: string): Option<Keys>
  {
    if p in table then Some(table[p]) else None
  }

  predicate Promotes(x: Pending, p: string)
  {
    x.Promote? && x.plugin == p
  }

  /** The step changes what the vault holds for the plugin. */
  predicate Writes(x: Pending, p: string)
  {
    || (x.Save? && x.plugin == p && x.ok && p != "")
    || (x.Erase? && x.plugin == p && x.ok)
  }

  function Written(x: Pending): Option<Keys>
  {
    if x.Save? && Stored(Given(x.kv)) != map[] then Some(Stored(Given(x.kv))) else None
  }

  /** What is cached for the plugin after the steps: the last promotion, if any. */
  function CacheEnd(init: Option<Keys>, order: seq<Pending>, p: string): Option<Keys>
  {
    if order == [] then init
    else if Promotes(order[|order|-1], p) then Some(order[|order|-1].kv)
    else CacheEnd(init, order[..|order|-1], p)
  }

  /** What the vault holds for it: the last write, if any. */
  function VaultEnd(init: Option<Keys>, order: seq<Pending>, p: string): Option<Keys>
  {
    if order == [] then init
    else if Writes(order[|order|-1], p) then Written(order[|order|-1])
    else VaultEnd(init, order[..|order|-1], p)
  }

  lemma FinishedEntries(s: State, x: Pending, p: string)
    requires s.vault.Some?
    ensures var s2 := Finished(s, x);
            && s2.vault.Some?
            && Entry(s2.cache, p) == (if Promotes(x, p) then Some(x.kv) else Entry(s.cache, p))
            && Entry(s2.vault.value, p) == (if Writes(x, p) then Written(x) else Entry(s.vault.value, p))
  {
    hide Given, Stored;
  }

  lemma {:induction false} FinishAllEntries(s: State, order: seq<Pending>, p: string)
    requires s.vault.Some?
    ensures var s2 := FinishAll(s, order);
            && s2.vault.Some?
            && Entry(s2.cache, p) == CacheEnd(Entry(s.cache, p), order, p)
            && Entry(s2.vault.value, p) == VaultEnd(Entry(s.vault.value, p), order, p)
  {
    hide Finished, Promotes, Writes, Written, Entry;
    if order != [] {
      FinishAllEntries(s, order[..|order|-1], p);
      FinishedEntries(FinishAll(s, order[..|order|-1]), order[|order|-1], p);
    }
  }

  /** What may be cached for the plugin in the end, over all orders of the steps. */
  ghost predicate MayCache(init: Option<Keys>, pending: seq<Pending>, p: string, c: Option<Keys>)
  {
    if exists x :: x in pending && Promotes(x, p) then exists x :: x in pending && Promotes(x, p) && c == Some(x.kv)
    else c == init
  }

  ghost predicate MayStore(init: Option<Keys>, pending: seq<Pending>, p: string, v: Option<Keys>)
  {
    if exists x :: x in pending && Writes(x, p) then exists x :: x in pending && Writes(x, p) && v == Written(x)
    else v == init
  }

  lemma {:induction false} EndsMay(c: Option<Keys>, v: Option<Keys>, order: seq<Pending>, p: string)
    ensures MayCache(c, order, p, CacheEnd(c, order, p)) && MayStore(v, order, p, VaultEnd(v, order, p))
  {
    hide Promotes, Writes, Written;
    if order != [] {
      EndsMay(c, v, order[..|order|-1], p);
      assert order == order[..|order|-1] + [order[|order|-1]];
    }
  }

  lemma MayOnlyMembers(init: Option<Keys>, a: seq<Pending>, b: seq<Pending>, p: string, x: Option<Keys>)
    requires multiset(a) == multiset(b)
    ensures MayCache(init, a, p, x) <==> MayCache(init, b, p, x)
    ensures MayStore(init, a, p, x) <==> MayStore(init, b, p, x)
  {
    hide Promotes, Writes, Written;
    assert forall y :: y in a <==> y in multiset(a);
    assert forall y :: y in b <==> y in multiset(b);
  }

  function MovedLast(s: seq<Pending>, i: nat): seq<Pending>
    requires i < |s|
  {
    s[..i] + s[i + 1..] + [s[i]]
  }

  lemma MovedLastSame(s: seq<Pending>, i: nat)
    requires i < |s|
    ensures multiset(MovedLast(s, i)) == multiset(s)
  {
    assert s == s[..i] + [s[i]] + s[i + 1..];
  }

  /** A step that does not promote the plugin makes no difference to what is cached. */
  lemma {:induction false} CacheEndSkips(c: Option<Keys>, a: seq<Pending>, x: Pending, b: seq<Pending>, p: string)
    requires !Promotes(x, p)
    ensures CacheEnd(c, a + [x] + b, p) == CacheEnd(c, a + b, p)
  {
    hide Promotes;
    if b == [] {
      assert a + [x] + b == a + [x] && a + b == a && (a + [x])[..|a|] == a;
    } else {
      var n := |b| - 1;
      CacheEndSkips(c, a, x, b[..n], p);
      assert (a + [x] + b)[..|a| + 1 + n] == a + [x] + b[..n] && (a + b)[..|a| + n] == a + b[..n];
    }
  }

  lemma CacheEndMoved(c: Option<Keys>, order: seq<Pending>, j: nat, p: string)
    requires j < |order| && !Promotes(order[j], p)
    ensures CacheEnd(c, MovedLast(order, j), p) == CacheEnd(c, order, p)
  {
    hide Promotes;
    var a, x, b := order[..j], order[j], order[j + 1..];
    assert order == a + [x] + b && MovedLast(order, j) == (a + b) + [x] + [];
    CacheEndSkips(c, a, x, b, p);
    CacheEndSkips(c, a + b, x, [], p);
    assert (a + b) + [] == a + b;
  }

  /** Any possible cached value comes with any possible stored one. */
  lemma EndsReached(s: State, pending: seq<Pending>, p: string, c: Option<Keys>, v: Option<Keys>)
    returns (order: seq<Pending>)
    requires s.vault.Some?
    requires MayCache(Entry(s.cache, p), pending, p, c) && MayStore(Entry(s.vault.value, p), pending, p, v)
    ensures multiset(order) == multiset(pending)
    ensures CacheEnd(Entry(s.cache, p), order, p) == c && VaultEnd(Entry(s.vault.value, p), order, p) == v
  {
    hide Entry, Written;
    var first := CacheReached(Entry(s.cache, p), pending, p, c);
    MayOnlyMembers(Entry(s.vault.value, p), first, pending, p, v);
    if exists x :: x in first && Writes(x, p) {
      var y :| y in first && Writes(y, p) && v == Written(y);
      var j :| 0 <= j < |first| && first[j] == y;
      order := MovedLast(first, j);
      MovedLastSame(first, j);
      CacheEndMoved(Entry(s.cache, p), first, j, p);
    } else {
      order := first;
      EndsMay(Entry(s.cache, p), Entry(s.vault.value, p), order, p);
    }
  }

  lemma CacheReached(init: Option<Keys>, pending: seq<Pending>, p: string, c: Option<Keys>)
    returns (order: seq<Pending>)
    requires MayCache(init, pending, p, c)
    ensures multiset(order) == multiset(pending) && CacheEnd(init, order, p) == c
  {
    if exists x :: x in pending && Promotes(x, p) {
      var x :| x in pending && Promotes(x, p) && c == Some(x.kv);
      var i :| 0 <= i < |pending| && pending[i] == x;
      order := MovedLast(pending, i);
      MovedLastSame(pending, i);
    } else {
      order := pending;
      EndsMay(init, init, order, p);
    }
  }

  lemma AgreesIs(s: State, p: string)
    requires s.vault.Some?
    ensures Agrees(s, p) <==> Entry(s.cache, p).None? || Entry(s.cache, p) == Entry(s.vault.value, p)
  {
  }

  /** Every value that may be cached in the end is every one that may be stored. */
  ghost predicate EndsAgree(s: State, pending: seq<Pending>, p: string)
    requires s.vault.Some?
  {
    forall c, v :: MayCache(Entry(s.cache, p), pending, p, c) && MayStore(Entry(s.vault.value, p), pending, p, v) ==>
      c.None? || c == v
  }

  /** Whatever the order in which the pending steps are made, cache and vault then agree on
      the plugin, exactly when each promotion pending (or else what is cached) is what each
      write pending (or else the vault) leaves. */
  lemma AgreesInTheEndIff(s: State, pending: seq<Pending>, p: string)
    requires s.vault.Some?
    ensures (forall order :: multiset(order) == multiset(pending) ==>
               FinishAll(s, order).vault.Some? && Agrees(FinishAll(s, order), p))
            <==> EndsAgree(s, pending, p)
  {
    hide MayCache, MayStore, FinishAll, Agrees, Entry;
    if EndsAgree(s, pending, p) {
      forall order | multiset(order) == multiset(pending)
        ensures FinishAll(s, order).vault.Some? && Agrees(FinishAll(s, order), p)
      {
        FinishAllEntries(s, order, p);
        EndsMay(Entry(s.cache, p), Entry(s.vault.value, p), order, p);
        MayOnlyMembers(Entry(s.cache, p), order, pending, p, CacheEnd(Entry(s.cache, p), order, p));
        MayOnlyMembers(Entry(s.vault.value, p), order, pending, p, VaultEnd(Entry(s.vault.value, p), order, p));
        AgreesIs(FinishAll(s, order), p);
      }
    } else {
      var c, v :| MayCache(Entry(s.cache, p), pending, p, c) && MayStore(Entry(s.vault.value, p), pending, p, v)
                  && !(c.None? || c == v);
      var order := EndsReached(s, pending, p, c, v);
      FinishAllEntries(s, order, p);
      AgreesIs(FinishAll(s, order), p);
    }
  }

  // ----- Every interleaving

  ghost predicate RacingOk(r: Racing)
  {
    StateOk(r.now) && forall i :: 0 <= i < |r.pending| && r.pending[i].Promote? ==> r.pending[i].kv != map[]
  }

  lemma RaceStepOk(r: Racing, m: Move)
    requires RacingOk(r) && (m.Begin? ==> !m.e.Hydrate?)
    ensures RacingOk(RaceStep(r, m))
  {
    hide Given, Stored;
    match m
    case Begin(e) =>
      StartedOk(r.now, e);
      assert forall i :: 0 <= i < |Left(r.now, e)| && Left(r.now, e)[i].Promote? ==> Left(r.now, e)[i].kv != map[];
    case Load(p) =>
    case Finish(i) =>
      if i < |r.pending| {
        FinishedOk(r.now, r.pending[i]);
      }
  }

  lemma StartedOk(s: State, e: Event)
    requires StateOk(s)
    ensures StateOk(Started(s, e))
  {
    hide Given, Stored;
    if e.Elsewhere? {
      StepOk(s, e);
    }
  }

  lemma FinishedOk(s: State, x: Pending)
    requires StateOk(s) && (x.Promote? ==> x.kv != map[])
    ensures StateOk(Finished(s, x))
  {
    hide Given, Stored;
    if x.Save? {
      StoredTwice(x.kv);
    }
  }

  ghost predicate NoHydrate(moves: seq<Move>)
  {
    forall m :: m in moves && m.Begin? ==> !m.e.Hydrate?
  }

  lemma {:induction false} RaceRunOk(vault: Table, moves: seq<Move>)
    requires TableOk(vault) && NoHydrate(moves)
    ensures RacingOk(RaceRun(vault, moves))
  {
    hide RaceStep;
    if moves != [] {
      assert moves[|moves|-1] in moves;
      RaceRunOk(vault, moves[..|moves|-1]);
      RaceStepOk(RaceRun(vault, moves[..|moves|-1]), moves[|moves|-1]);
    }
  }

  /** However the steps of lookups, sets, clears and loads interleave: a new process, however
      much of the vault it has loaded, answers for a plugin as this one does, exactly when
      what is cached here for it is what the vault holds. */
  lemma RacedRestartAlikeIff(vault: Table, moves: seq<Move>, plugin: string)
    requires TableOk(vault) && NoHydrate(moves)
    ensures var s := RaceRun(vault, moves).now;
            && s.vault.Some?
            && ((forall loaded :: Answer(Restarted(s, loaded), plugin, true) == Answer(s, plugin, true))
                <==> Agrees(s, plugin))
  {
    hide RaceRun, NoHydrate, Answer, Agrees, AfterHydrate;
    RaceRunOk(vault, moves);
    var s := RaceRun(vault, moves).now;
    forall loaded ensures Answer(Restarted(s, loaded), plugin, true) == Answer(s, plugin, true) <==> Agrees(s, plugin) {
      RestartAlike(s, plugin, loaded);
    }
    assert Answer(Restarted(s, {}), plugin, true) == Answer(s, plugin, true) <==> Agrees(s, plugin);
  }

  /** A lookup that read the vault before a clear and promotes after it makes the cleared
      keys active again, with the vault empty. */
  lemma ClearUndoneReached()
    ensures var kv: Keys := map["k" := "v"];
            var vault: Table := map["p" := kv];
            var moves := [Begin(Get("p", true))] + [Begin(Clear("p", true))] + [Finish(1)] + [Finish(0)];
            var r := RaceRun(vault, moves);
            && TableOk(vault) && r.pending == []
            && r.now.vault.Some? && "p" !in r.now.vault.value && Answer(r.now, "p", true) == Some(kv)
  {
    var kv: Keys := map["k" := "v"];
    var vault: Table := map["p" := kv];
    var m0, m1 := Begin(Get("p", true)), Begin(Clear("p", true));
    assert "k" in kv && kv != map[];
    assert Stored(kv) == kv;
    RaceSnoc(vault, [], m0);
    assert [] + [m0] == [m0];
    RaceSnoc(vault, [m0], m1);
    RaceSnoc(vault, [m0] + [m1], Finish(1));
    RaceSnoc(vault, [m0] + [m1] + [Finish(1)], Finish(0));
    var s := Fresh(vault);
    assert RaceRun(vault, [m0]).pending == [Promote("p", kv)];
    assert RaceRun(vault, [m0] + [m1]) == Racing(s, [Promote("p", kv), Erase("p", true)]);
    assert RaceRun(vault, [m0] + [m1] + [Finish(1)]).pending == [Promote("p", kv)];
  }

  lemma RaceSnoc(vault: Table, moves: seq<Move>, m: Move)
    ensures RaceRun(vault, moves + [m]) == RaceStep(RaceRun(vault, moves), m)
  {
    assert (moves + [m])[..|moves|] == moves;
  }

  // ----- How long pasted keys stay active

  function RaceFrom(r: Racing, more: seq<Move>): Racing
  {
    if more == [] then r else RaceStep(RaceFrom(r, more[..|more|-1]), more[|more|-1])
  }

  /** The plugin's keys are not set, cleared or loaded again. */
  predicate Quiet(m: Move, p: string)
  {
    && (m.Begin? ==> !m.e.Hydrate? && (m.e.Set? || m.e.Clear? ==> m.e.plugin != p))
    && (m.Load? ==> m.plugin != p)
  }

  ghost predicate AllQuiet(more: seq<Move>, p: string)
  {
    forall m :: m in more ==> Quiet(m, p)
  }

  /** The keys are cached, and every promotion pending for the plugin is of the same. */
  ghost predicate Active(r: Racing, p: string, k: Keys)
  {
    && Entry(r.now.cache, p) == Some(k)
    && forall i :: 0 <= i < |r.pending| && Promotes(r.pending[i], p) ==> r.pending[i].kv == k
  }

  lemma QuietKeepsActive(r: Racing, m: Move, p: string, k: Keys)
    requires Active(r, p, k) && k != map[] && Quiet(m, p)
    ensures Active(RaceStep(r, m), p, k)
  {
    hide Given, Stored, KeyRef.SplitKeyRef;
  }

  lemma {:induction false} QuietKeepActive(r: Racing, more: seq<Move>, p: string, k: Keys)
    requires Active(r, p, k) && k != map[] && AllQuiet(more, p)
    ensures Active(RaceFrom(r, more), p, k)
  {
    hide RaceStep, Quiet, Active;
    if more != [] {
      assert more[|more|-1] in more;
      QuietKeepActive(r, more[..|more|-1], p, k);
      QuietKeepsActive(RaceFrom(r, more[..|more|-1]), more[|more|-1], p, k);
    }
  }

  /** Keys in the cache stay active until they are set, cleared or loaded again, whatever
      fails and whatever finishes in between, exactly when no lookup that read other keys
      before is still to promote them. */
  lemma KeysStayActiveIff(r: Racing, p: string, k: Keys)
    requires Entry(r.now.cache, p) == Some(k) && k != map[]
    ensures (forall more :: AllQuiet(more, p) ==> Entry(RaceFrom(r, more).now.cache, p) == Some(k))
            <==> Active(r, p, k)
  {
    hide RaceStep, AllQuiet, Entry;
    if Active(r, p, k) {
      forall more | AllQuiet(more, p) ensures Entry(RaceFrom(r, more).now.cache, p) == Some(k) {
        QuietKeepActive(r, more, p, k);
      }
    } else {
      var i :| 0 <= i < |r.pending| && Promotes(r.pending[i], p) && r.pending[i].kv != k;
      var more := [Finish(i)];
      OtherPromoted(r, i, p);
      assert RaceFrom(r, more) == RaceStep(r, Finish(i)) by { assert more[..0] == []; }
      assert Entry(RaceFrom(r, more).now.cache, p) != Some(k);
    }
  }

  lemma OtherPromoted(r: Racing, i: nat, p: string)
    requires i < |r.pending| && Promotes(r.pending[i], p)
    ensures Entry(RaceStep(r, Finish(i)).now.cache, p) == Some(r.pending[i].kv) && AllQuiet([Finish(i)], p)
  {
  }

  // ----- Operations on one plugin that do not overlap

  /** The plugin an event is about, if any. */
  function PluginOf(m: Move): Option<string>
  {
    match m
    case Begin(e) =>
      (match e
       case Set(p, _, _) => Some(p)
       case Clear(p, _) => Some(p)
       case Elsewhere(p, _) => Some(p)
       case Get(p, _) => Some(p)
       case Resolve(auth, _) => if NeedsKeys(auth) then Some(auth.secretRef) else None
       case Hydrate(_) => None)
    case Load(p) => Some(p)
    case Finish(_) => None
  }

  ghost predicate Busy(r: Racing, p: string)
  {
    exists i :: 0 <= i < |r.pending| && r.pending[i].plugin == p
  }

  /** No operation on a plugin begins before the one before it on that plugin is finished. */
  ghost predicate Serial(r: Racing, m: Move)
  {
    PluginOf(m).Some? ==> !Busy(r, PluginOf(m).value)
  }

  ghost predicate AllSerial(vault: Table, moves: seq<Move>)
  {
    moves == [] ||
    (AllSerial(vault, moves[..|moves|-1]) && Serial(RaceRun(vault, moves[..|moves|-1]), moves[|moves|-1]))
  }

  /** The operations begun, as if each were one step. */
  function Begun(moves: seq<Move>): seq<Event>
  {
    if moves == [] then []
    else
      Begun(moves[..|moves|-1])
      + match moves[|moves|-1]
        case Begin(e) => [e]
        case Load(p) => [Hydrate({p})]
        case Finish(_) => []
  }

  predicate SameEntries(s: State, t: State, p: string)
  {
    && s.vault.Some? && t.vault.Some?
    && Entry(s.cache, p) == Entry(t.cache, p) && Entry(s.vault.value, p) == Entry(t.vault.value, p)
  }

  /** On every plugin the race is where the single steps are, but for the step pending. */
  ghost predicate Follows(r: Racing, a: State)
  {
    && (forall i, j :: 0 <= i < j < |r.pending| ==> r.pending[i].plugin != r.pending[j].plugin)
    && (forall p :: !Busy(r, p) ==> SameEntries(r.now, a, p))
    && (forall i :: 0 <= i < |r.pending| ==> SameEntries(Finished(r.now, r.pending[i]), a, r.pending[i].plugin))
  }

  /** An operation looks at and changes the entries of its own plugin alone. */
  lemma StartedElsewhere(s: State, e: Event, p: string)
    requires s.vault.Some? && !e.Hydrate? && PluginOf(Begin(e)) != Some(p)
    ensures SameEntries(Started(s, e), s, p) && SameEntries(Step(s, e), s, p)
    ensures forall i :: 0 <= i < |Left(s, e)| ==> PluginOf(Begin(e)) == Some(Left(s, e)[i].plugin)
  {
    hide Given, Stored, KeyRef.SplitKeyRef;
  }

  /** And in a way that depends on those entries alone. */
  lemma StepLocal(s: State, a: State, e: Event, p: string)
    requires !e.Hydrate? && PluginOf(Begin(e)) == Some(p) && SameEntries(s, a, p)
    ensures SameEntries(Step(s, e), Step(a, e), p)
  {
    hide Given, Stored, KeyRef.SplitKeyRef;
  }

  lemma LoadLocal(s: State, a: State, p: string)
    requires SameEntries(s, a, p)
    ensures SameEntries(FinishAll(s, LeftByLoad(s, p)), Step(a, Hydrate({p})), p)
    ensures forall q :: q != p ==> Entry(Step(a, Hydrate({p})).cache, q) == Entry(a.cache, q)
    ensures Step(a, Hydrate({p})).vault == a.vault
    ensures LeftByLoad(s, p) == [] || (exists kv :: LeftByLoad(s, p) == [Promote(p, kv)])
  {
    var left := LeftByLoad(s, p);
    if left != [] {
      FinishOne(s, left[0]);
    }
  }

  lemma LeftIs(s: State, e: Event)
    ensures |Left(s, e)| <= 1
    ensures forall i :: 0 <= i < |Left(s, e)| ==> PluginOf(Begin(e)) == Some(Left(s, e)[i].plugin)
  {
    hide KeyRef.SplitKeyRef;
  }

  /** One more operation on a plugin that is not busy: s2 is the state after its first step,
      left its second, a2 the single step. */
  lemma FollowsMore(r: Racing, a: State, p: string, s2: State, left: seq<Pending>, a2: State)
    requires Follows(r, a) && !Busy(r, p) && r.now.vault.Some? && a.vault.Some?
    requires |left| <= 1 && forall i :: 0 <= i < |left| ==> left[i].plugin == p
    requires SameEntries(FinishAll(s2, left), a2, p)
    requires forall q :: q != p ==> SameEntries(s2, r.now, q) && SameEntries(a2, a, q)
    ensures Follows(Racing(s2, r.pending + left), a2)
  {
    hide Entry, Finished, Promotes, Writes, Written, SameEntries;
    var r2 := Racing(s2, r.pending + left);
    forall q | !Busy(r2, q) ensures SameEntries(s2, a2, q) {
      BusyMore(r, s2, left, q);
      if q == p {
        assert FinishAll(s2, []) == s2;
      } else {
        SameThrice(s2, r.now, a, a2, q);
      }
    }
    forall i | 0 <= i < |r2.pending|
      ensures SameEntries(Finished(s2, r2.pending[i]), a2, r2.pending[i].plugin)
    {
      var x := r2.pending[i];
      if i < |r.pending| {
        assert x == r.pending[i] && x.plugin != p;
        FinishedSame(s2, r.now, x);
        SameThrice(Finished(s2, x), Finished(r.now, x), a, a2, x.plugin);
      } else {
        assert left == [x];
        FinishOne(s2, x);
      }
    }
  }

  lemma BusyMore(r: Racing, s: State, left: seq<Pending>, q: string)
    ensures Busy(Racing(s, r.pending + left), q) <==>
            Busy(r, q) || exists i :: 0 <= i < |left| && left[i].plugin == q
  {
    var all := r.pending + left;
    if i :| 0 <= i < |r.pending| && r.pending[i].plugin == q {
      assert all[i].plugin == q;
    }
    if i :| 0 <= i < |left| && left[i].plugin == q {
      assert all[|r.pending| + i].plugin == q;
    }
  }

  lemma SameThrice(a: State, b: State, c: State, d: State, q: string)
    requires SameEntries(a, b, q) && SameEntries(b, c, q) && SameEntries(d, c, q)
    ensures SameEntries(a, d, q)
  {
  }

  lemma SameTwice(a: State, b: State, c: State, q: string)
    requires SameEntries(a, b, q) && SameEntries(b, c, q)
    ensures SameEntries(a, c, q)
  {
  }

  lemma FinishedSame(s: State, t: State, x: Pending)
    requires SameEntries(s, t, x.plugin)
    ensures SameEntries(Finished(s, x), Finished(t, x), x.plugin)
  {
    hide Entry, Finished, Promotes, Writes, Written;
    FinishedEntries(s, x, x.plugin);
    FinishedEntries(t, x, x.plugin);
  }

  lemma FollowsBegin(r: Racing, a: State, e: Event)
    requires Follows(r, a) && !e.Hydrate? && Serial(r, Begin(e)) && r.now.vault.Some? && a.vault.Some?
    ensures Follows(RaceStep(r, Begin(e)), Step(a, e))
  {
    hide Follows, Step, Started, Left, SameEntries, FinishAll, PluginOf, Busy;
    var s := r.now;
    if PluginOf(Begin(e)).None? {
      NoPlugin(s, a, e);
      assert r.pending + [] == r.pending;
    } else {
      var p := PluginOf(Begin(e)).value;
      LeftIs(s, e);
      forall q | q != p ensures SameEntries(Started(s, e), s, q) && SameEntries(Step(a, e), a, q) {
        StartedElsewhere(s, e, q);
        StartedElsewhere(a, e, q);
      }
      assert SameEntries(s, a, p) by { IdleSame(r, a, p); }
      StepLocal(s, a, e, p);
      StepsAloneAreTheOperation(s, e);
      FollowsMore(r, a, p, Started(s, e), Left(s, e), Step(a, e));
    }
  }

  lemma IdleSame(r: Racing, a: State, p: string)
    requires Follows(r, a) && !Busy(r, p)
    ensures SameEntries(r.now, a, p)
  {
  }

  lemma NoPlugin(s: State, a: State, e: Event)
    requires PluginOf(Begin(e)).None? && !e.Hydrate?
    ensures Started(s, e) == s && Left(s, e) == [] && Step(a, e) == a
  {
    hide KeyRef.SplitKeyRef;
  }

  lemma FollowsLoad(r: Racing, a: State, p: string)
    requires Follows(r, a) && !Busy(r, p) && r.now.vault.Some? && a.vault.Some?
    ensures Follows(RaceStep(r, Load(p)), Step(a, Hydrate({p})))
  {
    hide Follows, Busy, Step, FinishAll, LeftByLoad, Entry;
    IdleSame(r, a, p);
    LoadLocal(r.now, a, p);
    FollowsMore(r, a, p, r.now, LeftByLoad(r.now, p), Step(a, Hydrate({p})));
  }

  lemma FollowsFinish(r: Racing, a: State, i: nat)
    requires Follows(r, a) && r.now.vault.Some? && i < |r.pending|
    ensures Follows(RaceStep(r, Finish(i)), a)
  {
    hide Finished, SameEntries;
    var x, r2 := r.pending[i], RaceStep(r, Finish(i));
    assert forall k :: 0 <= k < |r2.pending| ==> r2.pending[k] == r.pending[if k < i then k else k + 1];
    forall q | !Busy(r2, q) ensures SameEntries(r2.now, a, q) {
      BusyLess(r, i, q);
      if q != x.plugin {
        FinishedOther(r.now, x, q);
        SameTwice(r2.now, r.now, a, q);
      }
    }
    forall k | 0 <= k < |r2.pending| ensures SameEntries(Finished(r2.now, r2.pending[k]), a, r2.pending[k].plugin) {
      var y := r2.pending[k];
      assert y.plugin != x.plugin;
      FinishedOther(r.now, x, y.plugin);
      FinishedSame(r2.now, r.now, y);
      SameTwice(Finished(r2.now, y), Finished(r.now, y), a, y.plugin);
    }
  }

  lemma BusyLess(r: Racing, i: nat, q: string)
    requires i < |r.pending|
    ensures Busy(r, q) ==> Busy(RaceStep(r, Finish(i)), q) || r.pending[i].plugin == q
  {
    hide Finished;
    var r2 := RaceStep(r, Finish(i));
    if k :| 0 <= k < |r.pending| && r.pending[k].plugin == q {
      assert k != i ==> r2.pending[if k < i then k else k - 1] == r.pending[k];
    }
  }

  lemma FinishedOther(s: State, x: Pending, q: string)
    requires s.vault.Some? && q != x.plugin
    ensures SameEntries(Finished(s, x), s, q)
  {
    hide Finished, Written;
    FinishedEntries(s, x, q);
  }

  /** The single step that a move begins. */
  function Single(a: State, m: Move): State
  {
    match m
    case Begin(e) => Step(a, e)
    case Load(p) => Step(a, Hydrate({p}))
    case Finish(_) => a
  }

  lemma BegunSnoc(vault: Table, moves: seq<Move>)
    requires moves != []
    ensures After(Fresh(vault), Begun(moves)) ==
            Single(After(Fresh(vault), Begun(moves[..|moves|-1])), moves[|moves|-1])
  {
    hide Step;
    var before, m := Begun(moves[..|moves|-1]), moves[|moves|-1];
    if m.Finish? {
      assert before + [] == before;
    } else {
      var e := if m.Begin? then m.e else Hydrate({m.plugin});
      assert (before + [e])[..|before|] == before;
    }
  }

  /** If operations on one plugin do not overlap, however they interleave with those on
      others, each plugin is where single steps would have put it, but for the step
      pending on it. */
  lemma {:induction false} SerialFollows(vault: Table, moves: seq<Move>)
    requires TableOk(vault) && NoHydrate(moves) && AllSerial(vault, moves)
    ensures Follows(RaceRun(vault, moves), After(Fresh(vault), Begun(moves)))
  {
    hide RaceStep, Step, Serial, Begun, After, Follows;
    if moves == [] {
      NothingBegun(vault);
    } else {
      var before, m := moves[..|moves|-1], moves[|moves|-1];
      assert m in moves;
      SerialFollows(vault, before);
      RaceRunOk(vault, before);
      HistoryOk(vault, Begun(before));
      BegunSnoc(vault, moves);
      var r, a := RaceRun(vault, before), After(Fresh(vault), Begun(before));
      match m
      case Begin(e) => FollowsBegin(r, a, e);
      case Load(p) =>
        assert !Busy(r, p) by { SerialLoad(r, p); }
        FollowsLoad(r, a, p);
      case Finish(i) =>
        if i < |r.pending| {
          FollowsFinish(r, a, i);
        } else {
          NothingToFinish(r, i);
        }
    }
  }

  lemma NothingBegun(vault: Table)
    ensures Follows(Racing(Fresh(vault), []), After(Fresh(vault), Begun([])))
  {
  }

  lemma NothingToFinish(r: Racing, i: nat)
    requires i >= |r.pending|
    ensures RaceStep(r, Finish(i)) == r
  {
  }

  lemma SerialLoad(r: Racing, p: string)
    requires Serial(r, Load(p))
    ensures !Busy(r, p)
  {
  }

  lemma SameAnswer(s: State, a: State, p: string, ok: bool)
    requires SameEntries(s, a, p)
    ensures Answer(s, p, ok) == Answer(a, p, ok)
  {
  }

  /** Then a process answers for every plugin with nothing pending as if every operation were
      one step; with saved sets and clears, with exactly the keys pasted last. */
  lemma SerialAnswersArePasted(vault: Table, moves: seq<Move>, p: string)
    requires TableOk(vault) && NoHydrate(moves) && AllSerial(vault, moves) && !Busy(RaceRun(vault, moves), p)
    ensures forall ok :: Answer(RaceRun(vault, moves).now, p, ok) == Answer(After(Fresh(vault), Begun(moves)), p, ok)
    ensures SetsSaved(Begun(moves)) && ClearsSucceed(Begun(moves)) ==>
              var pasted := Pasted(vault, Begun(moves));
              Answer(RaceRun(vault, moves).now, p, true) == if p in pasted then Some(pasted[p]) else None
  {
    hide RaceRun, AllSerial, NoHydrate, Busy, Follows, After, Begun, Answer;
    hide SetsSaved, ClearsSucceed, Pasted, SameEntries;
    SerialFollows(vault, moves);
    var s, a := RaceRun(vault, moves).now, After(Fresh(vault), Begun(moves));
    IdleSame(RaceRun(vault, moves), a, p);
    forall ok ensures Answer(s, p, ok) == Answer(a, p, ok) {
      SameAnswer(s, a, p, ok);
    }
    if SetsSaved(Begun(moves)) && ClearsSucceed(Begun(moves)) {
      AnswersArePasted(vault, Begun(moves), p, {});
    }
  }
}
