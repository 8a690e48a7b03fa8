/** Plugin credentials: a write-through cache of pasted keys over an encrypted vault.
    Encryption followed by decryption is the identity here. */
module PluginKeys {
  import KeyRef
  import opened Options

  type Keys = map<string, string>
  type Table = map<string, Keys>

  // ----- The vault

  /** What the vault keeps of a key set: neither empty names nor empty values. */
  function Stored(kv: Keys): Keys
  {
    map k | k in kv && k != "" && kv[k] != "" :: kv[k]
  }

  function Put(table: Table, plugin: string, kv: Keys): Table
  {
    if kv == map[] then table - {plugin} else table[plugin := kv]
  }

  function Load(table: Table, plugin: string): Keys
  {
    if plugin in table then table[plugin] else map[]
  }

  ghost predicate NoneEmpty(table: Table)
  {
    forall p :: p in table ==> table[p] != map[]
  }

  /** Every plugin listed has at least one key, and no key is empty. */
  ghost predicate TableOk(table: Table)
  {
    NoneEmpty(table) && forall p :: p in table ==> Stored(table[p]) == table[p]
  }

  /** The vault transaction: delete the plugin's rows, insert the new ones one by one. */
  method SaveEvalPluginKeys(table: Table, plugin: string, kv: Keys) returns (ok: bool, after: Table)
    ensures ok <==> plugin != ""
    ensures after == if ok then Put(table, plugin, Stored(kv)) else table
  {
    if plugin == "" {
      return false, table;
    }
    after := table - {plugin};
    var todo := kv.Keys;
    ghost var done: Keys := map[];
    while todo != {}
      invariant todo <= kv.Keys
      invariant done == map k | k in kv && k !in todo && k != "" && kv[k] != "" :: kv[k]
      invariant after == Put(table, plugin, done)
      decreases todo
    {
      var name :| name in todo;
      todo := todo - {name};
      if name != "" && kv[name] != "" {
        assert Load(after, plugin) == done;
        done := done[name := kv[name]];
        assert name in done;
        after := after[plugin := Load(after, plugin)[name := kv[name]]];
      }
    }
    assert done == Stored(kv);
    ok := true;
  }

  // ----- The resolver

  /** One process's cache and the vault behind it (None when there is no database). */
  datatype State = State(cache: Table, vault: Option<Table>)

  /** Elsewhere: another process saves keys to the same vault. */
  datatype Event =
    | Set(plugin: string, kv: Keys, ok: bool)
    | Clear(plugin: string, ok: bool)
    | Elsewhere(plugin: string, kv: Keys)
    | Get(plugin: string, ok: bool)
    | Resolve(auth: AuthSpec, ok: bool)
    | Hydrate(loaded: set<string>)

  datatype AuthSpec = AuthSpec(secretRef: string, keyRef: string)

  /** Set drops empty values before anything else. */
  function Given(kv: Keys): Keys
  {
    map k | k in kv && kv[k] != "" :: kv[k]
  }

  function AfterSave(vault: Table, plugin: string, kv: Keys): Table
  {
    if plugin == "" then vault else Put(vault, plugin, Stored(Given(kv)))
  }

  function AfterSet(s: State, plugin: string, kv: Keys, ok: bool): State
  {
    State(Put(s.cache, plugin, Given(kv)),
          if s.vault.Some? && ok then Some(AfterSave(s.vault.value, plugin, kv)) else s.vault)
  }

  function AfterClear(s: State, plugin: string, ok: bool): State
  {
    State(s.cache - {plugin}, if s.vault.Some? && ok then Some(s.vault.value - {plugin}) else s.vault)
  }

  /** The keys a lookup works with: cached, else loaded; None when there are none. */
  function Answer(s: State, plugin: string, ok: bool): Option<Keys>
  {
    if Load(s.cache, plugin) != map[] then Some(s.cache[plugin])
    else if s.vault.None? || !ok || Load(s.vault.value, plugin) == map[] then None
    else Some(s.vault.value[plugin])
  }

  /** A miss that the vault answers is promoted into the cache. */
  function AfterLookup(s: State, plugin: string, ok: bool): State
  {
    var a := Answer(s, plugin, ok);
    if Load(s.cache, plugin) == map[] && a.Some? then s.(cache := s.cache[plugin := a.value]) else s
  }

  function Loaded(table: Table, names: set<string>): Table
  {
    map p | p in table && p in names && table[p] != map[] :: table[p]
  }

  /** Boot loads the owners one after another; a failure leaves the rest for later. */
  function AfterHydrate(s: State, loaded: set<string>): State
  {
    if s.vault.None? then s else s.(cache := s.cache + Loaded(s.vault.value, loaded))
  }

  // ----- Resolve

  datatype Credentials =
    | Values(values: seq<string>)
    | NoSecretRef
    | NoKeyNames
    | LoadFailed
    | NoKeysSet
    | Missing(names: seq<string>)

  predicate Has(stored: Keys, name: string)
  {
    name in stored && stored[name] != ""
  }

  /** The names of a key reference that stored has (or lacks), in order. */
  function Filter(names: seq<string>, stored: Keys, has: bool): seq<string>
  {
    if names == [] then []
    else Filter(names[..|names|-1], stored, has)
         + (if Has(stored, names[|names|-1]) == has then [names[|names|-1]] else [])
  }

  function ValuesOf(names: seq<string>, stored: Keys): seq<string>
    requires forall i :: 0 <= i < |names| ==> names[i] in stored
  {
    seq(|names|, i requires 0 <= i < |names| => stored[names[i]])
  }

  predicate NeedsKeys(auth: AuthSpec)
  {
    auth.secretRef != "" && KeyRef.SplitKeyRef(auth.keyRef) != []
  }

  /** The order of strings by their characters. */
  predicate AtMost(a: string, b: string)
  {
    a == [] || (b != [] && (a[0] < b[0] || (a[0] == b[0] && AtMost(a[1..], b[1..]))))
  }

  function Insert(names: seq<string>, x: string): seq<string>
  {
    if names == [] || AtMost(x, names[0]) then [x] + names else [names[0]] + Insert(names[1..], x)
  }

  function Sorted(names: seq<string>): seq<string>
  {
    if names == [] then [] else Insert(Sorted(names[1..]), names[0])
  }

  function Pick(names: seq<string>, stored: Keys): Credentials
  {
    var missing := Filter(names, stored, false);
    if missing != [] then Missing(Sorted(missing))
    else
      FilterSplits(names, stored);
      Values(ValuesOf(names, stored))
  }

  function Resolved(s: State, auth: AuthSpec, ok: bool): Credentials
  {
    if auth.secretRef == "" && auth.keyRef == "" then Values([])
    else if auth.secretRef == "" then NoSecretRef
    else if KeyRef.SplitKeyRef(auth.keyRef) == [] then NoKeyNames
    else
      var a := Answer(s, auth.secretRef, ok);
      if a.Some? then Pick(KeyRef.SplitKeyRef(auth.keyRef), a.value)
      else if s.vault.Some? && !ok then LoadFailed
      else NoKeysSet
  }

  lemma {:induction false} FilterSplits(names: seq<string>, stored: Keys)
    ensures forall x :: x in Filter(names, stored, false) <==> x in names && !Has(stored, x)
    ensures Filter(names, stored, false) == [] ==> forall i :: 0 <= i < |names| ==> Has(stored, names[i])
  {
    if names != [] {
      FilterSplits(names[..|names|-1], stored);
      assert names == names[..|names|-1] + [names[|names|-1]];
    }
  }

  ghost predicate Ascending(names: seq<string>)
  {
    forall i :: 0 < i < |names| ==> AtMost(names[i - 1], names[i])
  }

  lemma {:induction false} AtMostTotal(a: string, b: string)
    ensures AtMost(a, b) || AtMost(b, a)
  {
    if a != [] && b != [] && a[0] == b[0] {
      AtMostTotal(a[1..], b[1..]);
    }
  }

  lemma {:induction false} InsertOk(names: seq<string>, x: string)
    requires Ascending(names)
    ensures multiset(Insert(names, x)) == multiset(names) + multiset{x}
    ensures Ascending(Insert(names, x))
    ensures Insert(names, x)[0] == x || (names != [] && Insert(names, x)[0] == names[0])
  {
    if names != [] && !AtMost(x, names[0]) {
      var rest := names[1..];
      assert names == [names[0]] + rest;
      assert forall i :: 0 < i < |rest| ==> rest[i] == names[i + 1] && rest[i - 1] == names[i];
      InsertOk(rest, x);
      AtMostTotal(x, names[0]);
      assert rest != [] ==> AtMost(names[0], names[1]);
    }
  }

  lemma {:induction false} SortedOk(names: seq<string>)
    ensures multiset(Sorted(names)) == multiset(names) && Ascending(Sorted(names))
  {
    if names != [] {
      SortedOk(names[1..]);
      InsertOk(Sorted(names[1..]), names[0]);
      assert names == [names[0]] + names[1..];
    }
  }

  /** The values come in the order of the key reference, or the call fails on exactly the
      names that are not set, in alphabetical order. */
  lemma PickIsExact(names: seq<string>, stored: Keys)
    ensures Pick(names, stored).Values? <==> forall i :: 0 <= i < |names| ==> Has(stored, names[i])
    ensures Pick(names, stored).Values? ==>
              && |Pick(names, stored).values| == |names|
              && forall i :: 0 <= i < |names| ==>
                   Has(stored, names[i]) && Pick(names, stored).values[i] == stored[names[i]]
    ensures !Pick(names, stored).Values? ==>
              && Pick(names, stored).Missing? && Ascending(Pick(names, stored).names)
              && forall x :: x in Pick(names, stored).names <==> x in names && !Has(stored, x)
  {
    hide Filter, Sorted, Ascending;
    FilterSplits(names, stored);
    var missing := Filter(names, stored, false);
    SortedOk(missing);
    assert forall x :: x in Sorted(missing) <==> x in multiset(Sorted(missing));
    if missing != [] {
      assert missing[0] in missing;
    }
  }

  lemma {:induction false} FilterCounts(names: seq<string>, stored: Keys, x: string)
    ensures multiset(Filter(names, stored, false))[x] == if Has(stored, x) then 0 else multiset(names)[x]
  {
    hide Has;
    if names != [] {
      var n := |names| - 1;
      FilterCounts(names[..n], stored, x);
      assert names == names[..n] + [names[n]];
    }
  }

  /** The order of sort.Strings: a prefix comes first, else the first difference decides. */
  lemma {:induction false} AtMostIs(a: string, b: string)
    ensures AtMost(a, b) <==>
            a <= b || exists k :: 0 <= k < |a| && k < |b| && a[..k] == b[..k] && a[k] < b[k]
  {
    if a != [] && b != [] {
      var a', b' := a[1..], b[1..];
      assert a == [a[0]] + a' && b == [b[0]] + b';
      if a[0] == b[0] {
        AtMostIs(a', b');
        if k :| 0 <= k < |a'| && k < |b'| && a'[..k] == b'[..k] && a'[k] < b'[k] {
          assert a[..k + 1] == [a[0]] + a'[..k] && b[..k + 1] == [b[0]] + b'[..k] && a[k + 1] < b[k + 1];
        }
        if k :| 0 <= k < |a| && k < |b| && a[..k] == b[..k] && a[k] < b[k] {
          assert k > 0 && a'[..k - 1] == a[..k][1..] && b'[..k - 1] == b[..k][1..];
          assert a'[k - 1] == a[k] && b'[k - 1] == b[k];
        }
      } else {
        if a[0] < b[0] {
          assert a[..0] == b[..0];
        }
        assert forall k :: 0 < k < |a| && k < |b| ==> a[..k][0] != b[..k][0];
      }
    }
  }

  /** What a lookup finds: the cached keys if there are any, else the stored ones if the
      vault can be read, else nothing. */
  function Found(s: State, plugin: string, ok: bool): Keys
  {
    if plugin in s.cache && s.cache[plugin] != map[] then s.cache[plugin]
    else if s.vault.Some? && ok && plugin in s.vault.value then s.vault.value[plugin]
    else map[]
  }

  lemma AnswerIsFound(s: State, plugin: string, ok: bool)
    ensures Answer(s, plugin, ok) == if Found(s, plugin, ok) == map[] then None else Some(Found(s, plugin, ok))
  {
  }

  /** Every name has a value among the keys. */
  predicate AllSet(names: seq<string>, keys: Keys)
  {
    forall i :: 0 <= i < |names| ==> names[i] in keys && keys[names[i]] != ""
  }

  /** Resolving, case by case: each error exactly when it is due, in this order; else the
      values of all the names of the reference, in its order, or exactly those not set. */
  lemma ResolvedIsExact(s: State, auth: AuthSpec, ok: bool, names: seq<string>)
    requires KeyRef.Names(auth.keyRef, names)
    ensures var r, keys := Resolved(s, auth, ok), Found(s, auth.secretRef, ok);
            var due := auth.secretRef != "" && names != [];
            && (auth.secretRef == "" && auth.keyRef == "" ==> r == Values([]))
            && (r.NoSecretRef? <==> auth.secretRef == "" && auth.keyRef != "")
            && (r.NoKeyNames? <==> auth.secretRef != "" && names == [])
            && (r.LoadFailed? <==> due && keys == map[] && s.vault.Some? && !ok)
            && (r.NoKeysSet? <==> due && keys == map[] && (s.vault.None? || ok))
            && (due && keys != map[] ==> (r.Values? <==> AllSet(names, keys)) && (r.Missing? <==> !AllSet(names, keys)))
            && (due && r.Values? ==> |r.values| == |names|)
            && (due && r.Values? ==> forall i :: 0 <= i < |names| ==> names[i] in keys && r.values[i] == keys[names[i]])
            && (r.Missing? ==> Ascending(r.names))
            && (r.Missing? ==>
                  forall x :: multiset(r.names)[x] == if x in keys && keys[x] != "" then 0 else multiset(names)[x])
  {
    hide KeyRef.SplitKeyRef, KeyRef.Names, Pick, Ascending, Answer;
    assert KeyRef.SplitKeyRef(auth.keyRef) == names by { KeyRef.SplitKeyRefIs(auth.keyRef, names); }
    AnswerIsFound(s, auth.secretRef, ok);
    var keys := Found(s, auth.secretRef, ok);
    PickIsExact(names, keys);
    PickCounts(names, keys);
  }

  lemma PickCounts(names: seq<string>, stored: Keys)
    ensures Pick(names, stored).Missing? ==>
              forall x :: multiset(Pick(names, stored).names)[x] == if Has(stored, x) then 0 else multiset(names)[x]
  {
    hide Sorted, Filter, Has;
    SortedOk(Filter(names, stored, false));
    forall x ensures multiset(Filter(names, stored, false))[x] == if Has(stored, x) then 0 else multiset(names)[x] {
      FilterCounts(names, stored, x);
    }
  }

  // ----- Histories

  function Step(s: State, e: Event): State
  {
    match e
    case Set(p, kv, ok) => AfterSet(s, p, kv, ok)
    case Clear(p, ok) => AfterClear(s, p, ok)
    case Elsewhere(p, kv) => if s.vault.Some? then s.(vault := Some(AfterSave(s.vault.value, p, kv))) else s
    case Get(p, ok) => AfterLookup(s, p, ok)
    case Resolve(auth, ok) => if NeedsKeys(auth) then AfterLookup(s, auth.secretRef, ok) else s
    case Hydrate(loaded) => AfterHydrate(s, loaded)
  }

  function After(s: State, events: seq<Event>): State
  {
    if events == [] then s else Step(After(s, events[..|events|-1]), events[|events|-1])
  }

  /** A process that has just started over the given vault. */
  function Fresh(vault: Table): State
  {
    State(map[], Some(vault))
  }

  /** A new process over the vault that s leaves behind, with some owners loaded. */
  function Restarted(s: State, loaded: set<string>): State
    requires s.vault.Some?
  {
    AfterHydrate(Fresh(s.vault.value), loaded)
  }

  /** Nothing listed without keys, in the cache or in the vault. */
  ghost predicate StateOk(s: State)
  {
    s.vault.Some? && TableOk(s.vault.value) && NoneEmpty(s.cache)
  }

  /** What is cached for the plugin is what the vault holds. */
  ghost predicate Agrees(s: State, plugin: string)
    requires s.vault.Some?
  {
    plugin in s.cache ==> plugin in s.vault.value && s.vault.value[plugin] == s.cache[plugin]
  }

  lemma StoredTwice(kv: Keys)
    ensures Stored(Stored(Given(kv))) == Stored(Given(kv))
  {
  }

  lemma StepOk(s: State, e: Event)
    requires StateOk(s)
    ensures StateOk(Step(s, e))
  {
    hide Stored, Given, KeyRef.SplitKeyRef;
    if e.Set? || e.Elsewhere? {
      StoredTwice(e.kv);
    }
  }

  lemma {:induction false} HistoryOk(vault: Table, events: seq<Event>)
    requires TableOk(vault)
    ensures StateOk(After(Fresh(vault), events))
  {
    hide Step;
    if events != [] {
      HistoryOk(vault, events[..|events|-1]);
      StepOk(After(Fresh(vault), events[..|events|-1]), events[|events|-1]);
    }
  }

  /** After any history of this process and others, whatever vault calls failed: however
      much of the vault a new process has loaded, it answers for a plugin as this one does,
      exactly when what this one has cached for it is what the vault holds. */
  lemma RestartAnswersAlikeIff(vault: Table, events: seq<Event>, plugin: string)
    requires TableOk(vault)
    ensures var s := After(Fresh(vault), events);
            && s.vault.Some?
            && ((forall loaded :: Answer(Restarted(s, loaded), plugin, true) == Answer(s, plugin, true))
                <==> Agrees(s, plugin))
  {
    hide After, Stored;
    HistoryOk(vault, events);
    var s := After(Fresh(vault), events);
    forall loaded ensures Answer(Restarted(s, loaded), plugin, true) == Answer(s, plugin, true) <==> Agrees(s, plugin) {
      RestartAlike(s, plugin, loaded);
    }
    assert Answer(Restarted(s, {}), plugin, true) == Answer(s, plugin, true) <==> Agrees(s, plugin);
  }

  lemma RestartAlike(s: State, plugin: string, loaded: set<string>)
    requires StateOk(s)
    ensures Answer(Restarted(s, loaded), plugin, true) == Answer(s, plugin, true) <==> Agrees(s, plugin)
  {
    hide Stored;
  }

  // ----- Histories after which the vault has it all

  /** A Set that leaves nothing in the cache the vault does not get. */
  predicate SavedSet(plugin: string, kv: Keys, ok: bool)
  {
    Given(kv) == map[] || (ok && plugin != "" && "" !in Given(kv))
  }

  /** The event does not part cache and vault over this plugin. */
  predicate Harmless(e: Event, plugin: string)
  {
    && (e.Set? && e.plugin == plugin ==> SavedSet(plugin, e.kv, e.ok))
    && (e.Elsewhere? ==> e.plugin != plugin)
  }

  /** The latest Set or Clear of the plugin, if any, was saved or left nothing cached, and
      no other process has written its keys since. */
  predicate Saved(events: seq<Event>, plugin: string)
  {
    events == [] ||
    var e := events[|events|-1];
    Harmless(e, plugin)
    && (((e.Set? || e.Clear?) && e.plugin == plugin) || Saved(events[..|events|-1], plugin))
  }

  lemma SetAgrees(s: State, kv: Keys, plugin: string, ok: bool)
    requires StateOk(s) && SavedSet(plugin, kv, ok)
    ensures Agrees(AfterSet(s, plugin, kv, ok), plugin)
  {
    if "" !in Given(kv) {
      assert Stored(Given(kv)) == Given(kv);
    }
  }

  lemma StepAgrees(s: State, e: Event, plugin: string)
    requires StateOk(s) && Harmless(e, plugin)
    requires ((e.Set? || e.Clear?) && e.plugin == plugin) || Agrees(s, plugin)
    ensures Step(s, e).vault.Some? && Agrees(Step(s, e), plugin)
  {
    hide Stored, Given, SavedSet, KeyRef.SplitKeyRef;
    if e.Set? && e.plugin == plugin {
      SetAgrees(s, e.kv, plugin, e.ok);
    }
  }

  lemma {:induction false} SavedAgrees(vault: Table, events: seq<Event>, plugin: string)
    requires TableOk(vault) && Saved(events, plugin)
    ensures var s := After(Fresh(vault), events); s.vault.Some? && Agrees(s, plugin)
  {
    hide Step, Harmless, Agrees;
    if events == [] {
      NothingCached(vault, plugin);
    } else {
      var n := |events| - 1;
      HistoryOk(vault, events[..n]);
      if Saved(events[..n], plugin) {
        SavedAgrees(vault, events[..n], plugin);
      }
      StepAgrees(After(Fresh(vault), events[..n]), events[n], plugin);
    }
  }

  lemma NothingCached(vault: Table, plugin: string)
    ensures Agrees(Fresh(vault), plugin)
  {
  }

  /** So keys that were saved last are answered alike after a restart. */
  lemma RestartAnswersAlike(vault: Table, events: seq<Event>, plugin: string, loaded: set<string>)
    requires TableOk(vault) && Saved(events, plugin)
    ensures var s := After(Fresh(vault), events);
            s.vault.Some? && Answer(Restarted(s, loaded), plugin, true) == Answer(s, plugin, true)
  {
    hide After, Saved, Agrees, Answer, AfterHydrate;
    HistoryOk(vault, events);
    SavedAgrees(vault, events, plugin);
    RestartAlike(After(Fresh(vault), events), plugin, loaded);
  }

  /** And resolved alike, values and errors. */
  lemma RestartResolvesAlike(vault: Table, events: seq<Event>, auth: AuthSpec, loaded: set<string>)
    requires TableOk(vault) && Saved(events, auth.secretRef)
    ensures var s := After(Fresh(vault), events);
            s.vault.Some? && Resolved(Restarted(s, loaded), auth, true) == Resolved(s, auth, true)
  {
    hide After, Saved, Pick, Answer, KeyRef.SplitKeyRef;
    RestartAnswersAlike(vault, events, auth.secretRef, loaded);
  }

  /** Every Set was accepted, for a named plugin and named keys; nobody else wrote. Lookups,
      clears and loads may fail at will. */
  ghost predicate SetsSaved(events: seq<Event>)
  {
    && (forall e :: e in events && e.Set? ==> e.ok && e.plugin != "" && "" !in Given(e.kv))
    && (forall e :: e in events ==> !e.Elsewhere?)
  }

  lemma {:induction false} SetsSavedSaved(events: seq<Event>, plugin: string)
    requires SetsSaved(events)
    ensures Saved(events, plugin)
  {
    hide Given;
    if events != [] {
      assert events[|events|-1] in events;
      SetsSavedSaved(events[..|events|-1], plugin);
    }
  }

  /** Then a restart changes no answer and no resolution, whatever was loaded at boot. */
  lemma RestartChangesNothing(vault: Table, events: seq<Event>, loaded: set<string>)
    requires TableOk(vault) && SetsSaved(events)
    ensures var s := After(Fresh(vault), events);
            && s.vault.Some?
            && (forall plugin :: Answer(Restarted(s, loaded), plugin, true) == Answer(s, plugin, true))
            && (forall auth :: Resolved(Restarted(s, loaded), auth, true) == Resolved(s, auth, true))
  {
    hide After, SetsSaved, Saved, Answer, Resolved, AfterHydrate;
    HistoryOk(vault, events);
    var s := After(Fresh(vault), events);
    forall plugin ensures Answer(Restarted(s, loaded), plugin, true) == Answer(s, plugin, true) {
      SetsSavedSaved(events, plugin);
      RestartAnswersAlike(vault, events, plugin, loaded);
    }
    forall auth ensures Resolved(Restarted(s, loaded), auth, true) == Resolved(s, auth, true) {
      SetsSavedSaved(events, auth.secretRef);
      RestartResolvesAlike(vault, events, auth, loaded);
    }
  }

  // ----- What one operation does to the answers

  /** Pasting keys: from then on the process finds exactly those with a value, and nothing
      if none has one and the vault keeps none; the vault gets exactly those with a name
      and a value, if it can be written; other plugins are not touched. */
  lemma SetIsExact(s: State, plugin: string, kv: Keys, ok: bool)
    ensures var s2 := AfterSet(s, plugin, kv, ok);
            && (plugin in s2.cache <==> exists k :: k in kv && kv[k] != "")
            && (plugin in s2.cache ==> forall k :: k in s2.cache[plugin] <==> k in kv && kv[k] != "")
            && (plugin in s2.cache ==> forall k :: k in s2.cache[plugin] ==> s2.cache[plugin][k] == kv[k])
            && (forall p :: p != plugin ==> (p in s2.cache <==> p in s.cache))
            && (forall p :: p != plugin && p in s.cache ==> s2.cache[p] == s.cache[p])
            && (s.vault.None? || !ok || plugin == "" ==> s2.vault == s.vault)
            && (s.vault.Some? && ok && plugin != "" ==>
                  s2.vault.Some? && SavedExactly(s.vault.value, s2.vault.value, plugin, kv))
  {
    GivenAny(kv);
    if s.vault.Some? && ok && plugin != "" {
      StoredAny(kv);
    }
  }

  /** The vault holds for the plugin exactly the keys with a name and a value. */
  ghost predicate SavedExactly(before: Table, after: Table, plugin: string, kv: Keys)
  {
    && (plugin in after <==> exists k :: k in kv && k != "" && kv[k] != "")
    && (plugin in after ==> forall k :: k in after[plugin] <==> k in kv && k != "" && kv[k] != "")
    && (plugin in after ==> forall k :: k in after[plugin] ==> after[plugin][k] == kv[k])
    && (forall p :: p != plugin ==> (p in after <==> p in before))
    && (forall p :: p != plugin && p in before ==> after[p] == before[p])
  }

  lemma GivenAny(kv: Keys)
    ensures Given(kv) != map[] <==> exists k :: k in kv && kv[k] != ""
  {
    if k :| k in kv && kv[k] != "" {
      assert k in Given(kv);
    }
    if Given(kv) != map[] {
      var k :| k in Given(kv);
    }
  }

  lemma StoredAny(kv: Keys)
    ensures Stored(Given(kv)) != map[] <==> exists k :: k in kv && k != "" && kv[k] != ""
  {
    if k :| k in kv && k != "" && kv[k] != "" {
      assert k in Stored(Given(kv));
    }
    if Stored(Given(kv)) != map[] {
      var k :| k in Stored(Given(kv));
    }
  }

  /** Clearing: nothing is cached for the plugin, nothing is stored if the vault could be
      written, and other plugins are not touched. */
  lemma ClearIsExact(s: State, plugin: string, ok: bool)
    ensures var s2 := AfterClear(s, plugin, ok);
            && plugin !in s2.cache
            && (forall p :: p != plugin ==> (p in s2.cache <==> p in s.cache))
            && (forall p :: p != plugin && p in s.cache ==> s2.cache[p] == s.cache[p])
            && (s.vault.None? || !ok ==> s2.vault == s.vault)
            && (s.vault.Some? && ok ==> s2.vault.Some? && SavedExactly(s.vault.value, s2.vault.value, plugin, map[]))
    ensures s.vault.None? || ok ==> Found(AfterClear(s, plugin, ok), plugin, true) == map[]
  {
  }

  /** A lookup that finds keys leaves them cached, so that they are found without the vault;
      it changes nothing else. */
  lemma LookupIsExact(s: State, plugin: string, ok: bool)
    ensures var s2 := AfterLookup(s, plugin, ok);
            && s2.vault == s.vault
            && (Found(s, plugin, ok) != map[] ==> plugin in s2.cache && s2.cache[plugin] == Found(s, plugin, ok))
            && (Found(s, plugin, ok) == map[] ==> s2 == s)
            && (forall p :: p != plugin ==> (p in s2.cache <==> p in s.cache))
            && (forall p :: p != plugin && p in s.cache ==> s2.cache[p] == s.cache[p])
  {
  }

  /** Loading caches what the vault holds for each owner loaded, over what was cached. */
  lemma HydrateIsExact(s: State, loaded: set<string>, p: string)
    requires s.vault.Some?
    ensures var s2, v := AfterHydrate(s, loaded), s.vault.value;
            && s2.vault == s.vault
            && (p in loaded && p in v && v[p] != map[] ==> p in s2.cache && s2.cache[p] == v[p])
            && (p !in loaded || p !in v || v[p] == map[] ==> (p in s2.cache <==> p in s.cache))
            && (p !in loaded || p !in v || v[p] == map[] ==> p in s.cache ==> s2.cache[p] == s.cache[p])
  {
  }

  // ----- What was pasted last is what is answered

  /** The keys in force: those of the latest Set or Clear, else those in the vault at boot. */
  function Pasted(vault: Table, events: seq<Event>): Table
  {
    if events == [] then vault
    else
      var t := Pasted(vault, events[..|events|-1]);
      match events[|events|-1]
      case Set(p, kv, _) => Put(t, p, Given(kv))
      case Clear(p, _) => t - {p}
      case _ => t
  }

  ghost predicate ClearsSucceed(events: seq<Event>)
  {
    forall e :: e in events && e.Clear? ==> e.ok
  }

  lemma {:induction false} VaultIsPasted(vault: Table, events: seq<Event>)
    requires TableOk(vault) && SetsSaved(events) && ClearsSucceed(events)
    ensures After(Fresh(vault), events).vault == Some(Pasted(vault, events))
  {
    hide Stored, Given, KeyRef.SplitKeyRef;
    if events != [] {
      var e := events[|events|-1];
      assert e in events;
      VaultIsPasted(vault, events[..|events|-1]);
      if e.Set? {
        assert Stored(Given(e.kv)) == Given(e.kv) by { StoredGiven(e.kv); }
      }
    }
  }

  lemma StoredGiven(kv: Keys)
    requires "" !in Given(kv)
    ensures Stored(Given(kv)) == Given(kv)
  {
  }

  /** The cache is invisible: a process and every successor of it answer with exactly the
      keys pasted last. */
  lemma AnswersArePasted(vault: Table, events: seq<Event>, plugin: string, loaded: set<string>)
    requires TableOk(vault) && SetsSaved(events) && ClearsSucceed(events)
    ensures var s := After(Fresh(vault), events);
            var pasted := Pasted(vault, events);
            var answer := if plugin in pasted then Some(pasted[plugin]) else None;
            && s.vault.Some?
            && Answer(s, plugin, true) == answer && Answer(Restarted(s, loaded), plugin, true) == answer
  {
    hide After, SetsSaved, ClearsSucceed, Pasted, Saved, Stored;
    HistoryOk(vault, events);
    VaultIsPasted(vault, events);
    SetsSavedSaved(events, plugin);
    SavedAgrees(vault, events, plugin);
    RestartAnswersAlike(vault, events, plugin, loaded);
  }

  /** Pasted keys are active in this process whether or not they were saved, until they
      are set or cleared again or a load overwrites them. */
  lemma {:induction false} PastedKeysStayActive(
    s: State, plugin: string, kv: Keys, ok: bool, events: seq<Event>, readable: bool)
    requires Given(kv) != map[]
    requires forall e :: e in events ==> !e.Hydrate? && ((e.Set? || e.Clear?) ==> e.plugin != plugin)
    ensures var s2 := After(AfterSet(s, plugin, kv, ok), events);
            && Load(s2.cache, plugin) == Given(kv)
            && Answer(s2, plugin, readable) == Some(Given(kv))
  {
    hide Given, Stored, KeyRef.SplitKeyRef;
    if events != [] {
      assert events[|events|-1] in events;
      PastedKeysStayActive(s, plugin, kv, ok, events[..|events|-1], readable);
    }
  }

  /** A Set that the vault accepted survives a restart exactly when no key with a value
      has an empty name, although it reports success. */
  lemma SavedSetSurvivesIff(s: State, plugin: string, kv: Keys, loaded: set<string>)
    requires StateOk(s) && plugin != ""
    ensures var s2 := AfterSet(s, plugin, kv, true);
            Answer(Restarted(s2, loaded), plugin, true) == Answer(s2, plugin, true) <==> "" !in Given(kv)
  {
    StoredTwice(kv);
    if "" !in Given(kv) {
      StoredGiven(kv);
    }
  }

  /** Keys saved by another process are answered here exactly when none are cached here,
      or the same. */
  lemma SavedElsewhereSeenIff(s: State, plugin: string, kv: Keys)
    requires StateOk(s) && plugin != "" && Stored(Given(kv)) != map[]
    ensures Answer(Step(s, Elsewhere(plugin, kv)), plugin, true) == Some(Stored(Given(kv)))
            <==> (plugin in s.cache ==> s.cache[plugin] == Stored(Given(kv)))
  {
    hide Given, Stored;
  }

  // ----- The resolver object

  method DropEmpty(kv: Keys) returns (c: Keys)
    ensures c == Given(kv)
  {
    c := map[];
    var todo := kv.Keys;
    while todo != {}
      invariant todo <= kv.Keys
      invariant c == map k | k in kv && k !in todo && kv[k] != "" :: kv[k]
      decreases todo
    {
      var k :| k in todo;
      todo := todo - {k};
      if kv[k] != "" {
        c := c[k := kv[k]];
      }
    }
  }

  /** Loading one more owner. */
  lemma HydrateOne(s: State, names: set<string>, name: string)
    requires s.vault.Some? && name in s.vault.value
    ensures var before, kv := AfterHydrate(s, names), s.vault.value[name];
            AfterHydrate(s, names + {name}) ==
            if kv == map[] then before else before.(cache := before.cache[name := kv])
  {
    var got, kv := Loaded(s.vault.value, names), s.vault.value[name];
    LoadedOne(s.vault.value, names, name);
    hide Loaded;
    if kv != map[] {
      assert s.cache + got[name := kv] == (s.cache + got)[name := kv];
    }
  }

  lemma LoadedOne(table: Table, names: set<string>, name: string)
    requires name in table
    ensures Loaded(table, names + {name}) ==
            if table[name] == map[] then Loaded(table, names) else Loaded(table, names)[name := table[name]]
  {
  }

  class ConsoleKeyResolver {
    var keys: Table
    var vault: Option<Table>

    ghost function View(): State
      reads this
    {
      State(keys, vault)
    }

    constructor (vault: Option<Table>)
      ensures View() == State(map[], vault)
    {
      this.keys, this.vault := map[], vault;
    }

    /** The cache is written before the vault, so the keys work even if saving fails. */
    method Set(plugin: string, kv: Keys, ok: bool) returns (saved: bool)
      modifies this
      ensures View() == AfterSet(old(View()), plugin, kv, ok)
      ensures saved <==> vault.None? || (ok && plugin != "")
    {
      hide Stored, Given;
      var c := DropEmpty(kv);
      if |c| == 0 {
        keys := keys - {plugin};
      } else {
        keys := keys[plugin := c];
      }
      if vault.None? {
        return true;
      }
      if !ok {
        return false;
      }
      var written, table := SaveEvalPluginKeys(vault.value, plugin, c);
      vault := Some(table);
      return written;
    }

    method Clear(plugin: string, ok: bool) returns (cleared: bool)
      modifies this
      ensures View() == AfterClear(old(View()), plugin, ok)
      ensures cleared <==> vault.None? || ok
    {
      keys := keys - {plugin};
      if vault.None? {
        return true;
      }
      if ok {
        vault := Some(vault.value - {plugin});
      }
      return ok;
    }

    method Get(plugin: string, ok: bool) returns (r: Option<Keys>)
      modifies this
      ensures r == Answer(old(View()), plugin, ok)
      ensures View() == AfterLookup(old(View()), plugin, ok)
    {
      if plugin in keys && |keys[plugin]| != 0 {
        return Some(keys[plugin]);
      }
      if vault.None? || !ok {
        return None;
      }
      var kv := Load(vault.value, plugin);
      if |kv| == 0 {
        return None;
      }
      keys := keys[plugin := kv];
      return Some(kv);
    }

    /** Loads the owners in some order and stops at the first that fails. */
    method Hydrate(readable: set<string>) returns (loaded: nat, ghost names: set<string>)
      modifies this
      ensures View() == AfterHydrate(old(View()), names)
      ensures vault.Some? && vault.value.Keys <= readable ==>
                names == vault.value.Keys && (NoneEmpty(vault.value) ==> loaded == |vault.value.Keys|)
    {
      loaded, names := 0, {};
      assert View() == AfterHydrate(View(), names);
      hide AfterHydrate, Stored;
      if vault.None? {
        return;
      }
      var todo := vault.value.Keys;
      while todo != {}
        invariant vault == old(vault) && todo + names == vault.value.Keys && names <= readable
        invariant NoneEmpty(vault.value) ==> loaded + |todo| == |vault.value.Keys|
        invariant View() == AfterHydrate(old(View()), names)
        decreases todo
      {
        var name :| name in todo;
        if name !in readable {
          return;
        }
        todo := todo - {name};
        var kv := Load(vault.value, name);
        HydrateOne(old(View()), names, name);
        names := names + {name};
        if |kv| == 0 {
          continue;
        }
        keys := keys[name := kv];
        loaded := loaded + 1;
      }
    }

    method Resolve(auth: AuthSpec, ok: bool) returns (r: Credentials)
      modifies this
      ensures r == Resolved(old(View()), auth, ok)
      ensures View() == Step(old(View()), Event.Resolve(auth, ok))
    {
      hide KeyRef.SplitKeyRef;
      if auth.secretRef == "" && auth.keyRef == "" {
        return Values([]);
      }
      if auth.secretRef == "" {
        return NoSecretRef;
      }
      var names := KeyRef.SplitKeyRef(auth.keyRef);
      if |names| == 0 {
        return NoKeyNames;
      }
      var stored := Get(auth.secretRef, ok);
      if stored.None? {
        return if vault.Some? && !ok then LoadFailed else NoKeysSet;
      }
      r := PickLoop(names, stored.value);
    }
  }

  method PickLoop(names: seq<string>, stored: Keys) returns (r: Credentials)
    ensures r == Pick(names, stored)
  {
    var out, missing := [], [];
    for i := 0 to |names|
      invariant missing == Filter(names[..i], stored, false)
      invariant missing == [] ==> |out| == i
      invariant missing == [] ==> forall j :: 0 <= j < i ==> names[j] in stored && out[j] == stored[names[j]]
    {
      assert names[..i + 1][..i] == names[..i];
      var k := names[i];
      if k !in stored || stored[k] == "" {
        missing := missing + [k];
        continue;
      }
      out := out + [stored[k]];
    }
    assert names[..|names|] == names;
    FilterSplits(names, stored);
    if |missing| > 0 {
      return Missing(Sorted(missing));
    }
    assert out == ValuesOf(names, stored);
    return Values(out);
  }
}
