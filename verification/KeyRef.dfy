/** The two readers of a pipe-separated key reference: the console's single pass that
    trims blanks, and the resolver's split that trims all white space. */
module KeyRef {
  import opened Text

  predicate IsBlank(c: char)
  {
    c == ' ' || c == '\t'
  }

  /** The resolver's reading: split, trim, drop what is empty. */
  function SplitKeyRef(keyRef: string): seq<string>
  {
    TrimmedParts(Split(keyRef, '|'), IsSpace)
  }

  /** The reference is pieces between pipes that spell the names, each padded, with any blank
      pieces between them. */
  ghost predicate Names(keyRef: string, names: seq<string>)
  {
    exists pieces ::
      pieces != [] && AllFree(pieces, '|') && keyRef == Join(pieces, '|') && Spell(pieces, names, IsSpace)
  }

  /** A reference names one list of keys, and that is what is read. */
  lemma SplitKeyRefIs(keyRef: string, names: seq<string>)
    ensures SplitKeyRef(keyRef) == names <==> Names(keyRef, names)
  {
    hide Split, Join, TrimmedParts, Spell;
    if Names(keyRef, names) {
      var pieces :|
        pieces != [] && AllFree(pieces, '|') && keyRef == Join(pieces, '|') && Spell(pieces, names, IsSpace);
      SplitOfJoin(pieces, '|');
      TrimmedPartsSpell(pieces, names, IsSpace);
    }
    if SplitKeyRef(keyRef) == names {
      JoinOfSplit(keyRef, '|');
      TrimmedPartsSpell(Split(keyRef, '|'), names, IsSpace);
    }
  }

  /** The console's trimmer: shrink from the left, then from the right. */
  method TrimSpaces(s: string) returns (r: string)
    ensures r == Trim(s, IsBlank)
  {
    r := s;
    while |r| > 0 && IsBlank(r[0])
      invariant TrimLeft(r, IsBlank) == TrimLeft(s, IsBlank)
    {
      r := r[1..];
    }
    while |r| > 0 && IsBlank(r[|r|-1])
      invariant TrimRight(r, IsBlank) == Trim(s, IsBlank)
    {
      r := r[..|r|-1];
    }
  }

  /** The part a piece contributes: none if nothing is left of it. */
  function PartOf(piece: string): seq<string>
  {
    if Trim(piece, IsBlank) == "" then [] else [Trim(piece, IsBlank)]
  }

  /** Reading on from start: the piece up to the next pipe, then the rest. */
  lemma FirstPiece(keyRef: string, start: nat, i: nat)
    requires start <= i < |keyRef| && keyRef[i] == '|' && '|' !in keyRef[start..i]
    ensures TrimmedParts(Split(keyRef[start..], '|'), IsBlank) ==
            PartOf(keyRef[start..i]) + TrimmedParts(Split(keyRef[i + 1..], '|'), IsBlank)
  {
    hide Trim, Split;
    var piece, rest := keyRef[start..i], keyRef[i + 1..];
    assert keyRef[start..] == piece + ['|'] + rest;
    SplitFirst(piece, rest, '|');
    assert ([piece] + Split(rest, '|'))[1..] == Split(rest, '|');
  }

  lemma LastPiece(piece: string)
    requires '|' !in piece
    ensures TrimmedParts(Split(piece, '|'), IsBlank) == PartOf(piece)
  {
    hide Trim, Split;
    SplitWhole(piece, '|');
    assert [piece][1..] == [];
  }

  /** The console's single pass is the same split with the narrower trim. */
  method ScanKeyRef(keyRef: string) returns (out: seq<string>)
    ensures out == TrimmedParts(Split(keyRef, '|'), IsBlank)
  {
    hide Trim, Split, TrimmedParts;
    out := [];
    var start := 0;
    ghost var want := TrimmedParts(Split(keyRef, '|'), IsBlank);
    assert keyRef[0..] == keyRef;
    for i := 0 to |keyRef|
      invariant start <= i && '|' !in keyRef[start..i]
      invariant want == out + TrimmedParts(Split(keyRef[start..], '|'), IsBlank)
    {
      if keyRef[i] == '|' {
        FirstPiece(keyRef, start, i);
        var s := TrimSpaces(keyRef[start..i]);
        if s != "" {
          out := out + [s];
        }
        start := i + 1;
      }
    }
    assert keyRef[start..|keyRef|] == keyRef[start..];
    LastPiece(keyRef[start..]);
    var s := TrimSpaces(keyRef[start..]);
    if s != "" {
      out := out + [s];
    }
  }

  /** Where blanks are all there is to trim, the wide trim finds nothing more. */
  lemma NarrowTrimSuffices(p: string)
    ensures Trim(p, IsBlank) == Trim(p, IsSpace) <==> Trimmed(Trim(p, IsBlank), IsSpace)
  {
    var pre, post := TrimCut(p, IsBlank);
    var pre', post' := TrimCut(p, IsSpace);
    if Trimmed(Trim(p, IsBlank), IsSpace) {
      TrimUnique(pre, Trim(p, IsBlank), post, IsSpace);
    }
  }

  /** No piece, once its blanks are trimmed, still begins or ends with white space. */
  predicate OnlyBlanksAtEnds(keyRef: string)
  {
    var parts := Split(keyRef, '|');
    forall i :: 0 <= i < |parts| ==> Trimmed(Trim(parts[i], IsBlank), IsSpace)
  }

  lemma {:induction false} PartsAgree(parts: seq<string>)
    requires forall i :: 0 <= i < |parts| ==> Trim(parts[i], IsBlank) == Trim(parts[i], IsSpace)
    ensures TrimmedParts(parts, IsBlank) == TrimmedParts(parts, IsSpace)
  {
    hide Trim;
    if parts != [] {
      PartsAgree(parts[1..]);
    }
  }

  /** The two readings agree exactly when no piece is padded with white space other than
      spaces and tabs. */
  lemma ReadersAgreeIff(keyRef: string)
    ensures TrimmedParts(Split(keyRef, '|'), IsBlank) == SplitKeyRef(keyRef) <==> OnlyBlanksAtEnds(keyRef)
  {
    hide Trim, Split;
    var parts := Split(keyRef, '|');
    forall i | 0 <= i < |parts|
      ensures Trim(parts[i], IsBlank) == Trim(parts[i], IsSpace) <==> Trimmed(Trim(parts[i], IsBlank), IsSpace)
    {
      NarrowTrimSuffices(parts[i]);
    }
    if OnlyBlanksAtEnds(keyRef) {
      PartsAgree(parts);
    } else {
      var i :| 0 <= i < |parts| && !Trimmed(Trim(parts[i], IsBlank), IsSpace);
      TrimmedPartsMembers(parts, IsBlank);
      TrimmedPartsMembers(parts, IsSpace);
      assert Trim(parts[i], IsBlank) in TrimmedParts(parts, IsBlank);
    }
  }

  /** In particular on every string whose only white space is spaces and tabs. */
  lemma ReadersAgreeOnBlanks(keyRef: string)
    requires forall c :: c in keyRef && IsSpace(c) ==> IsBlank(c)
    ensures TrimmedParts(Split(keyRef, '|'), IsBlank) == SplitKeyRef(keyRef)
  {
    var parts := Split(keyRef, '|');
    forall i | 0 <= i < |parts| ensures Trimmed(Trim(parts[i], IsBlank), IsSpace) {
      var pre, post := TrimCut(parts[i], IsBlank);
      var t := Trim(parts[i], IsBlank);
      SplitCharacters(keyRef, '|', i);
      assert forall c :: c in t ==> c in parts[i];
      if t != "" {
        assert t[0] in t && t[|t|-1] in t;
      }
    }
    ReadersAgreeIff(keyRef);
  }
}
