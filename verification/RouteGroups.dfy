/** The route-group specification: "alias=model,model;alias=model". */
module RouteGroups {
  import opened Text
  import opened Options

  type Groups = map<string, seq<string>>

  // ----- Reading

  /** strings.Cut at one character: what is before and after its first occurrence. */
  function Cut(s: string, c: char): Option<(string, string)>
  {
    if s == "" then None
    else if s[0] == c then Some(("", s[1..]))
    else
      var rest := Cut(s[1..], c);
      if rest.None? then None else Some(([s[0]] + rest.value.0, rest.value.1))
  }

  function Models(list: string): seq<string>
  {
    TrimmedParts(Split(list, ','), IsSpace)
  }

  /** One ';'-separated entry; None when it is malformed or names no model. */
  function Entry(piece: string): Option<(string, seq<string>)>
  {
    var cut := Cut(TrimSpace(piece), '=');
    if cut.None? then None
    else
      var alias, models := TrimSpace(cut.value.0), Models(cut.value.1);
      if alias == "" || models == [] then None else Some((alias, models))
  }

  /** Later entries for an alias replace earlier ones. */
  function Collect(pieces: seq<string>): Groups
  {
    if pieces == [] then map[]
    else
      var before, e := Collect(pieces[..|pieces|-1]), Entry(pieces[|pieces|-1]);
      if e.None? then before else before[e.value.0 := e.value.1]
  }

  function Parse(spec: string): Groups
  {
    Collect(Split(spec, ';'))
  }

  method ParseRouteGroups(spec: string) returns (groups: Groups)
    ensures groups == Parse(spec)
    ensures Clean(groups)
  {
    hide Split, TrimSpace, Clean;
    groups := map[];
    var pieces := Split(spec, ';');
    for i := 0 to |pieces|
      invariant groups == Collect(pieces[..i])
    {
      assert pieces[..i + 1][..i] == pieces[..i];
      var group := TrimSpace(pieces[i]);
      if group != "" {
        var cut := Cut(group, '=');
        if cut.Some? {
          var alias := TrimSpace(cut.value.0);
          if alias != "" {
            var models := ReadModels(cut.value.1);
            if |models| > 0 {
              groups := groups[alias := models];
            }
          }
        }
      }
    }
    assert pieces[..|pieces|] == pieces;
    ParseIsClean(spec);
  }

  method ReadModels(list: string) returns (models: seq<string>)
    ensures models == Models(list)
  {
    hide Split, TrimSpace, Trim;
    models := [];
    var parts := Split(list, ',');
    for i := 0 to |parts|
      invariant TrimmedParts(parts, IsSpace) == models + TrimmedParts(parts[i..], IsSpace)
    {
      assert parts[i..][1..] == parts[i + 1..];
      var m := Trim(parts[i], IsSpace);
      if m != "" {
        models := models + [m];
      }
    }
  }

  // ----- Writing

  function Part(alias: string, models: seq<string>): string
  {
    alias + ['='] + Join(models, ',')
  }

  /** The parts in iteration order; groups without models are skipped. */
  function Parts(groups: Groups, order: seq<string>): seq<string>
    requires forall a :: a in order ==> a in groups
  {
    if order == [] then []
    else
      var a := order[|order|-1];
      Parts(groups, order[..|order|-1]) + (if groups[a] == [] then [] else [Part(a, groups[a])])
  }

  /** FormatRouteGroups when the map is iterated in the given order. */
  function Format(groups: Groups, order: seq<string>): string
    requires forall a :: a in order ==> a in groups
  {
    Join(Parts(groups, order), ';')
  }

  /** order lists the aliases of groups, each once. */
  ghost predicate Enumerates(order: seq<string>, groups: Groups)
  {
    && (forall i, j :: 0 <= i < j < |order| ==> order[i] != order[j])
    && (forall a :: a in order <==> a in groups)
  }

  method FormatRouteGroups(groups: Groups) returns (s: string)
    ensures exists order :: Enumerates(order, groups) && s == Format(groups, order)
  {
    if |groups| == 0 {
      assert Enumerates([], groups);
      assert Format(groups, []) == "";
      return "";
    }
    var parts := [];
    var todo := groups.Keys;
    ghost var order := [];
    while todo != {}
      invariant todo <= groups.Keys
      invariant forall i, j :: 0 <= i < j < |order| ==> order[i] != order[j]
      invariant forall a :: a in order <==> a in groups && a !in todo
      invariant parts == Parts(groups, order)
      decreases todo
    {
      var alias :| alias in todo;
      todo := todo - {alias};
      assert (order + [alias])[..|order|] == order;
      order := order + [alias];
      var models := groups[alias];
      if |models| > 0 {
        parts := parts + [Part(alias, models)];
      }
    }
    assert Enumerates(order, groups);
    s := Join(parts, ';');
  }

  // ----- What survives

  predicate CleanAlias(a: string)
  {
    a != "" && Trimmed(a, IsSpace) && ';' !in a && '=' !in a
  }

  predicate CleanModel(m: string)
  {
    m != "" && Trimmed(m, IsSpace) && ';' !in m && ',' !in m
  }

  ghost predicate CleanEntry(alias: string, models: seq<string>)
  {
    CleanAlias(alias) && models != [] && forall i :: 0 <= i < |models| ==> CleanModel(models[i])
  }

  ghost predicate Clean(groups: Groups)
  {
    forall a :: a in groups ==> CleanEntry(a, groups[a])
  }

  function NonEmpty(groups: Groups): Groups
  {
    map a | a in groups && groups[a] != [] :: groups[a]
  }

  lemma {:induction false} CutParts(s: string, c: char)
    requires Cut(s, c).Some?
    ensures s == Cut(s, c).value.0 + [c] + Cut(s, c).value.1
    ensures c !in Cut(s, c).value.0
  {
    if s[0] != c {
      CutParts(s[1..], c);
      assert s == [s[0]] + s[1..];
    }
  }

  lemma {:induction false} CutFirst(a: string, b: string, c: char)
    requires c !in a
    ensures Cut(a + [c] + b, c) == Some((a, b))
  {
    var s := a + [c] + b;
    if a == "" {
      assert s[1..] == b;
    } else {
      CutFirst(a[1..], b, c);
      assert s[1..] == a[1..] + [c] + b;
      assert a == [a[0]] + a[1..];
    }
  }

  lemma ModelsClean(list: string)
    requires ';' !in list
    ensures forall i :: 0 <= i < |Models(list)| ==> CleanModel(Models(list)[i])
  {
    hide Trim, Split, TrimmedParts;
    var parts := Split(list, ',');
    TrimmedPartsMembers(parts, IsSpace);
    forall i | 0 <= i < |Models(list)| ensures CleanModel(Models(list)[i]) {
      var m := Models(list)[i];
      assert m in Models(list);
      var k :| 0 <= k < |parts| && m == Trim(parts[k], IsSpace);
      SplitCharacters(list, ',', k);
      TrimKeepsOut(parts[k], IsSpace, ',');
      TrimKeepsOut(parts[k], IsSpace, ';');
    }
  }

  lemma EntryClean(piece: string)
    requires ';' !in piece && Entry(piece).Some?
    ensures CleanEntry(Entry(piece).value.0, Entry(piece).value.1)
  {
    hide Trim, Split, TrimmedParts, Cut, CleanModel;
    var g := TrimSpace(piece);
    TrimKeepsOut(piece, IsSpace, ';');
    CutParts(g, '=');
    var (a, l) := Cut(g, '=').value;
    TrimKeepsOut(a, IsSpace, ';');
    TrimKeepsOut(a, IsSpace, '=');
    var pre, post := TrimCut(a, IsSpace);
    ModelsClean(l);
  }

  lemma {:induction false} CollectClean(pieces: seq<string>)
    requires AllFree(pieces, ';')
    ensures Clean(Collect(pieces))
  {
    hide Entry, CleanEntry;
    if pieces != [] {
      CollectClean(pieces[..|pieces|-1]);
      if Entry(pieces[|pieces|-1]).Some? {
        EntryClean(pieces[|pieces|-1]);
      }
    }
  }

  /** Whatever the text, what is read is clean: trimmed, delimiter-free, no empty group. */
  lemma ParseIsClean(spec: string)
    ensures Clean(Parse(spec))
  {
    hide Clean, Collect;
    CollectClean(Split(spec, ';'));
  }

  // ----- The round trip

  lemma {:induction false} JoinEnds(models: seq<string>, sep: char)
    requires models != [] && forall i :: 0 <= i < |models| ==> models[i] != ""
    ensures Join(models, sep) != ""
    ensures var last := models[|models|-1];
            Join(models, sep)[|Join(models, sep)|-1] == last[|last|-1]
  {
    if |models| > 1 {
      JoinEnds(models[1..], sep);
      assert Join(models, sep) == (models[0] + [sep]) + Join(models[1..], sep);
    }
  }

  lemma {:induction false} JoinFree(models: seq<string>, sep: char, c: char)
    requires c != sep && forall i :: 0 <= i < |models| ==> c !in models[i]
    ensures c !in Join(models, sep)
  {
    if |models| > 1 {
      JoinFree(models[1..], sep, c);
    }
  }

  /** A clean group is read back from its own part. */
  lemma EntryOfPart(alias: string, models: seq<string>)
    requires CleanEntry(alias, models)
    ensures Entry(Part(alias, models)) == Some((alias, models))
    ensures ';' !in Part(alias, models)
  {
    hide Trim, Split, Join, Cut, TrimmedParts;
    var list := Join(models, ',');
    var part := Part(alias, models);
    JoinEnds(models, ',');
    JoinFree(models, ',', ';');
    assert part[|part|-1] == list[|list|-1];
    TrimNoop(part, IsSpace);
    CutFirst(alias, list, '=');
    TrimNoop(alias, IsSpace);
    SplitOfJoin(models, ',');
    TrimmedPartsNoop(models, IsSpace);
  }

  /** The groups of the given aliases that have models. */
  function Listed(groups: Groups, order: seq<string>): Groups
    requires forall a :: a in order ==> a in groups
  {
    map a | a in order && groups[a] != [] :: groups[a]
  }

  /** One more alias with models is one more part and one more group. */
  lemma CollectOneMore(groups: Groups, order: seq<string>, a: string)
    requires (forall x :: x in order ==> x in groups) && a in groups && groups[a] != []
    requires Clean(NonEmpty(groups)) && Collect(Parts(groups, order)) == Listed(groups, order)
    ensures var parts := Parts(groups, order) + [Part(a, groups[a])];
            && Collect(parts) == Listed(groups, order)[a := groups[a]]
            && ';' !in Part(a, groups[a])
  {
    hide Entry, Part, CleanEntry, Parts, Listed;
    var before := Parts(groups, order);
    assert NonEmpty(groups)[a] == groups[a];
    EntryOfPart(a, groups[a]);
    assert (before + [Part(a, groups[a])])[..|before|] == before;
  }

  lemma ListedSnoc(groups: Groups, order: seq<string>, a: string)
    requires (forall x :: x in order ==> x in groups) && a in groups
    ensures forall x :: x in order + [a] ==> x in groups
    ensures Listed(groups, order + [a]) ==
            if groups[a] != [] then Listed(groups, order)[a := groups[a]] else Listed(groups, order)
  {
  }

  lemma PartsSnoc(groups: Groups, order: seq<string>, a: string)
    requires (forall x :: x in order ==> x in groups) && a in groups
    ensures forall x :: x in order + [a] ==> x in groups
    ensures Parts(groups, order + [a]) ==
            Parts(groups, order) + if groups[a] != [] then [Part(a, groups[a])] else []
  {
    hide Part;
    assert (order + [a])[..|order|] == order;
  }

  lemma {:induction false} CollectParts(groups: Groups, order: seq<string>)
    requires forall a :: a in order ==> a in groups
    requires Clean(NonEmpty(groups))
    ensures Collect(Parts(groups, order)) == Listed(groups, order)
    ensures AllFree(Parts(groups, order), ';')
  {
    hide Part, Clean, Collect, Listed, Parts;
    if order == [] {
      CollectNothing(groups);
    } else {
      var n := |order| - 1;
      var a := order[n];
      CollectParts(groups, order[..n]);
      assert order == order[..n] + [a];
      PartsSnoc(groups, order[..n], a);
      ListedSnoc(groups, order[..n], a);
      if groups[a] != [] {
        CollectOneMore(groups, order[..n], a);
      } else {
        assert Parts(groups, order[..n]) + [] == Parts(groups, order[..n]);
      }
    }
  }

  lemma CollectNothing(groups: Groups)
    ensures Parts(groups, []) == [] && Collect([]) == Listed(groups, [])
  {
  }

  lemma FormatThenParse(groups: Groups, order: seq<string>)
    requires Enumerates(order, groups) && Clean(NonEmpty(groups))
    ensures Parse(Format(groups, order)) == NonEmpty(groups)
  {
    hide Clean, Entry;
    CollectParts(groups, order);
    var parts := Parts(groups, order);
    if parts == [] {
      assert Collect([""]) == map[] by {
        assert [""][..0] == [];
        EmptyPiece();
      }
    } else {
      SplitOfJoin(parts, ';');
    }
    assert Listed(groups, order) == NonEmpty(groups);
  }

  lemma EmptyPiece()
    ensures Entry("") == None
  {
  }

  /** Printing and reading back loses nothing but empty groups exactly when every other
      group is clean, whatever order the map is iterated in. */
  lemma RoundTripIff(groups: Groups, order: seq<string>)
    requires Enumerates(order, groups)
    ensures Parse(Format(groups, order)) == NonEmpty(groups) <==> Clean(NonEmpty(groups))
  {
    hide Clean, Parse, Format;
    if Clean(NonEmpty(groups)) {
      FormatThenParse(groups, order);
    } else {
      ParseIsClean(Format(groups, order));
    }
  }

  /** What was read survives being printed and read again, for every text and order. */
  lemma ParseFormatParse(spec: string, order: seq<string>)
    requires Enumerates(order, Parse(spec))
    ensures Parse(Format(Parse(spec), order)) == Parse(spec)
  {
    hide Parse, Format;
    ParseIsClean(spec);
    assert NonEmpty(Parse(spec)) == Parse(spec);
    RoundTripIff(Parse(spec), order);
  }

  // ----- What a text says, entry by entry

  lemma CollectSnoc(pieces: seq<string>, piece: string)
    ensures Collect(pieces + [piece]) ==
            if Entry(piece).None? then Collect(pieces)
            else Collect(pieces)[Entry(piece).value.0 := Entry(piece).value.1]
  {
    hide Entry;
    assert (pieces + [piece])[..|pieces|] == pieces;
  }

  lemma ParseSnoc(s: string, piece: string)
    requires ';' !in piece
    ensures Parse(s + ";" + piece) ==
            if Entry(piece).None? then Parse(s) else Parse(s)[Entry(piece).value.0 := Entry(piece).value.1]
  {
    hide Entry, Collect;
    SplitLast(s, piece, ';');
    CollectSnoc(Split(s, ';'), piece);
  }

  /** An empty text says nothing, and a text is its first entry after nothing. */
  lemma ParseStarts(s: string)
    ensures Parse("") == map[] && Parse(";" + s) == Parse(s)
  {
    hide Entry;
    EmptyPiece();
    assert [""][..0] == [];
    assert ";" + s == "" + [';'] + s;
    SplitFirst("", s, ';');
    CollectSkips(Split(s, ';'));
  }

  lemma {:induction false} CollectSkips(pieces: seq<string>)
    ensures Collect([""] + pieces) == Collect(pieces)
  {
    hide Entry;
    EmptyPiece();
    if pieces == [] {
      assert [""] + pieces == [""] && [""][..0] == [];
    } else {
      var n := |pieces| - 1;
      CollectSkips(pieces[..n]);
      assert ([""] + pieces)[..n + 1] == [""] + pieces[..n];
    }
  }

  /** An entry's text: white space, the alias, white space, "=", and a list whose parts may
      be padded. The white space at either end belongs to the entry. */
  function EntryText(pre: string, alias: string, gap: string, parts: seq<string>): string
  {
    pre + alias + gap + "=" + Join(parts, ',')
  }

  /** White space after a list is white space of its last model. */
  lemma ModelsPadded(list: string, post: string)
    requires AllDropped(post, IsSpace)
    ensures Models(list + post) == Models(list)
  {
    hide Trim, TrimmedParts, Split;
    assert ',' !in post;
    SplitPadded(list, post, ',');
    TrimmedPartsLast(Split(list, ','), post, IsSpace);
  }

  /** Whatever white space surrounds the pieces of an entry, it is cut at its first "=". */
  lemma EntryCut(pre: string, alias: string, gap: string, list: string)
    requires AllDropped(pre, IsSpace) && AllDropped(gap, IsSpace)
    requires alias != "" && Trimmed(alias, IsSpace) && '=' !in alias
    ensures Entry(pre + alias + gap + "=" + list) == if Models(list) == [] then None else Some((alias, Models(list)))
  {
    hide Trim, Split, TrimmedParts, Cut;
    var post := TrimRightCut(list, IsSpace);
    var t := TrimRight(list, IsSpace);
    var core := alias + gap + "=" + t;
    assert pre + alias + gap + "=" + list == pre + core + post;
    assert Trimmed(core, IsSpace) by { assert core[0] == alias[0]; }
    TrimUnique(pre, core, post, IsSpace);
    assert '=' !in gap;
    assert core == (alias + gap) + ['='] + t;
    CutFirst(alias + gap, t, '=');
    assert alias + gap == "" + alias + gap;
    TrimUnique("", alias, gap, IsSpace);
    ModelsPadded(t, post);
  }

  /** An entry for a clean alias, with whatever white space around it, around the alias and
      around each model, and whatever empty models between them, adds the alias with its
      models and replaces what an earlier entry said. */
  lemma ParseReadsEntry(s: string, pre: string, alias: string, gap: string, parts: seq<string>, models: seq<string>)
    requires AllDropped(pre, IsSpace) && AllDropped(gap, IsSpace) && CleanEntry(alias, models)
    requires parts != [] && AllFree(parts, ',') && AllFree(parts, ';') && Spell(parts, models, IsSpace)
    ensures Parse(s + ";" + EntryText(pre, alias, gap, parts)) == Parse(s)[alias := models]
  {
    hide Trim, Split, TrimmedParts, Join, Collect, Entry;
    var list := Join(parts, ',');
    SplitOfJoin(parts, ',');
    TrimmedPartsSpell(parts, models, IsSpace);
    JoinFree(parts, ',', ';');
    EntryCut(pre, alias, gap, list);
    assert ';' !in pre && ';' !in gap;
    ParseSnoc(s, EntryText(pre, alias, gap, parts));
  }

  /** Text without "=" is skipped. */
  lemma ParseSkipsNoEquals(s: string, p: string)
    requires ';' !in p && '=' !in p
    ensures Parse(s + ";" + p) == Parse(s)
  {
    hide Trim, Collect, Entry;
    ParseSnoc(s, p);
    assert Entry(p).None? by { NoEquals(p); }
  }

  lemma NoEquals(p: string)
    requires '=' !in p
    ensures Entry(p).None?
  {
    hide Trim, Cut;
    TrimKeepsOut(p, IsSpace, '=');
    if Cut(TrimSpace(p), '=').Some? {
      CutParts(TrimSpace(p), '=');
    }
  }

  /** So is an entry whose alias is blank. */
  lemma ParseSkipsBlankAlias(s: string, blank: string, list: string)
    requires AllDropped(blank, IsSpace) && ';' !in list
    ensures Parse(s + ";" + (blank + "=" + list)) == Parse(s)
  {
    hide Trim, Split, TrimmedParts, Cut, Collect;
    var post := TrimRightCut(list, IsSpace);
    var core := "=" + TrimRight(list, IsSpace);
    assert blank + "=" + list == blank + core + post;
    TrimUnique(blank, core, post, IsSpace);
    assert core == "" + ['='] + TrimRight(list, IsSpace);
    CutFirst("", TrimRight(list, IsSpace), '=');
    TrimBlank("", IsSpace);
    assert ';' !in blank + "=" + list;
    ParseSnoc(s, blank + "=" + list);
  }

  /** And one that lists nothing but blanks. */
  lemma ParseSkipsBlankModels(s: string, pre: string, alias: string, gap: string, parts: seq<string>)
    requires AllDropped(pre, IsSpace) && AllDropped(gap, IsSpace) && CleanAlias(alias)
    requires parts != [] && forall i :: 0 <= i < |parts| ==> AllDropped(parts[i], IsSpace)
    ensures Parse(s + ";" + EntryText(pre, alias, gap, parts)) == Parse(s)
  {
    hide Trim, Split, TrimmedParts, Join, Collect, Entry;
    assert AllFree(parts, ',') && AllFree(parts, ';');
    SplitOfJoin(parts, ',');
    BlanksSpellNothing(parts);
    TrimmedPartsSpell(parts, [], IsSpace);
    JoinFree(parts, ',', ';');
    EntryCut(pre, alias, gap, Join(parts, ','));
    assert ';' !in pre && ';' !in gap;
    ParseSnoc(s, EntryText(pre, alias, gap, parts));
  }

  lemma {:induction false} BlanksSpellNothing(parts: seq<string>)
    requires forall i :: 0 <= i < |parts| ==> AllDropped(parts[i], IsSpace)
    ensures Spell(parts, [], IsSpace)
    decreases |parts|
  {
    hide AllDropped;
    if parts != [] {
      BlanksSpellNothing(parts[1..]);
    }
  }

  /** These are all the entries there are. */
  lemma EveryEntryIsOne(p: string)
    requires ';' !in p
    ensures || '=' !in p
            || (exists blank, list :: p == blank + "=" + list && AllDropped(blank, IsSpace))
            || (exists pre, alias, gap, parts ::
                  && p == EntryText(pre, alias, gap, parts) && AllDropped(pre, IsSpace) && AllDropped(gap, IsSpace)
                  && CleanAlias(alias) && parts != [] && AllFree(parts, ',') && AllFree(parts, ';'))
  {
    hide Trim, Split, Join, Cut, AllDropped;
    if '=' in p {
      CutSome(p, '=');
      CutParts(p, '=');
      var (head, list) := Cut(p, '=').value;
      var pre, gap := TrimCut(head, IsSpace);
      var alias := Trim(head, IsSpace);
      assert AllDropped(pre, IsSpace) && AllDropped(gap, IsSpace) by { AllDroppedIs(pre, gap); }
      if alias == "" {
        TrimBlank(head, IsSpace);
        assert p == head + "=" + list;
      } else {
        var parts := Split(list, ',');
        JoinOfSplit(list, ',');
        forall i | 0 <= i < |parts| ensures ';' !in parts[i] {
          SplitCharacters(list, ',', i);
        }
        TrimKeepsOut(head, IsSpace, ';');
        TrimKeepsOut(head, IsSpace, '=');
        assert p == EntryText(pre, alias, gap, parts);
      }
    }
  }

  lemma AllDroppedIs(a: string, b: string)
    requires (forall c :: c in a ==> IsSpace(c)) && forall c :: c in b ==> IsSpace(c)
    ensures AllDropped(a, IsSpace) && AllDropped(b, IsSpace)
  {
  }

  lemma {:induction false} CutSome(s: string, c: char)
    requires c in s
    ensures Cut(s, c).Some?
  {
    if s[0] != c {
      CutSome(s[1..], c);
    }
  }

  /** What is printed: nothing for nothing, and one more alias adds its own entry, without
      any white space, after a ";" if something is there. */
  lemma FormatEntry(groups: Groups, order: seq<string>, a: string)
    requires (forall x :: x in order ==> x in groups) && a in groups
    ensures Format(groups, []) == ""
    ensures forall x :: x in order + [a] ==> x in groups
    ensures var before := Format(groups, order);
            var sep := if exists x :: x in order && groups[x] != [] then ";" else "";
            var entry := if groups[a] == [] then "" else sep + a + "=" + Join(groups[a], ',');
            Format(groups, order + [a]) == before + entry
  {
    hide Join, Parts;
    PartsSnoc(groups, order, a);
    PartsAny(groups, order);
    assert Parts(groups, []) == [] && Join([], ';') == "" by { NothingPrinted(groups); }
    assert Parts(groups, order) + [] == Parts(groups, order);
    if groups[a] != [] {
      JoinSnoc(Parts(groups, order), Part(a, groups[a]), ';');
    }
  }

  lemma NothingPrinted(groups: Groups)
    ensures Parts(groups, []) == [] && Join([], ';') == ""
  {
  }

  lemma {:induction false} PartsAny(groups: Groups, order: seq<string>)
    requires forall x :: x in order ==> x in groups
    ensures Parts(groups, order) != [] <==> exists x :: x in order && groups[x] != []
  {
    hide Part;
    if order != [] {
      var n := |order| - 1;
      PartsAny(groups, order[..n]);
      assert order == order[..n] + [order[n]];
    }
  }

  lemma {:induction false} JoinSnoc(parts: seq<string>, last: string, sep: char)
    ensures Join(parts + [last], sep) == if parts == [] then last else Join(parts, sep) + [sep] + last
  {
    if parts == [] {
      assert parts + [last] == [last];
    } else {
      JoinSnoc(parts[1..], last, sep);
      assert (parts + [last])[1..] == parts[1..] + [last];
      if |parts| > 1 {
        assert Join(parts, sep) == parts[0] + [sep] + Join(parts[1..], sep);
      }
    }
  }
}
