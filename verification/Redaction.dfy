/** Scrub: sequential replacement of protected signatures by a fenced marker. */
module Redaction {

  // ----- Substrings and strings.ReplaceAll

  /** t occurs in s at position i. */
  predicate OccursAt(s: string, t: string, i: nat)
  {
    i + |t| <= |s| && s[i..i + |t|] == t
  }

  ghost predicate Contains(s: string, t: string)
  {
    exists i: nat :: OccursAt(s, t, i)
  }

  /** strings.ReplaceAll: leftmost, non-overlapping, for a pattern that is not empty. */
  function ReplaceAll(s: string, pattern: string, replacement: string): string
    requires pattern != ""
  {
    if s == "" then ""
    else if pattern <= s then replacement + ReplaceAll(s[|pattern|..], pattern, replacement)
    else [s[0]] + ReplaceAll(s[1..], pattern, replacement)
  }

  // ----- The marker and the signatures

  const SUB: char := '\U{1A}'
  const TAG: string := "[NEXUS_REDACTED]"

  /** A tag fenced by the SUB control character; Scrub uses Marker(TAG). */
  function Marker(tag: string): string
  {
    [SUB] + tag + [SUB]
  }

  // The protected list, in its order, by the kind of leak each entry betrays.
  const SQL_SIGNATURES: seq<string> := ["SQLSTATE", "ERROR:", "pq:"]
  const RUNTIME_SIGNATURES: seq<string> := ["goroutine ", ".go:", "/Users/", "/home/"]
  const HOST_SIGNATURES: seq<string> := ["127.0.0.1", "localhost", "metadata.google.internal"]
  const TOKEN_SIGNATURES: seq<string> := ["sk-", "xoxb-", "ghp_", "postgres://", "clickhouse://"]
  const SECRET_SIGNATURES: seq<string> := ["redis://", "AKIA", "PRIVATE KEY"]
  const CONTENT_SIGNATURES: seq<string> := ["prompt_content=", "messages=[", "org_id="]

  const PROTECTED: seq<string> :=
    SQL_SIGNATURES + RUNTIME_SIGNATURES + HOST_SIGNATURES + TOKEN_SIGNATURES + SECRET_SIGNATURES
    + CONTENT_SIGNATURES

  predicate SubFree(s: string)
  {
    SUB !in s
  }

  /** What the marker demands of a signature: it is fenced out of the marker. */
  ghost predicate Fenced(sig: string, tag: string)
  {
    sig != "" && SubFree(sig) && !Contains(tag, sig)
  }

  ghost predicate AllFenced(sigs: seq<string>, tag: string)
  {
    forall i :: 0 <= i < |sigs| ==> Fenced(sigs[i], tag)
  }

  /** Scrub over a list of signatures, first to last. */
  function ScrubWith(s: string, sigs: seq<string>, tag: string): string
    requires forall i :: 0 <= i < |sigs| ==> sigs[i] != ""
  {
    if sigs == [] then s
    else ReplaceAll(ScrubWith(s, sigs[..|sigs|-1], tag), sigs[|sigs|-1], Marker(tag))
  }

  ghost predicate HasSignature(s: string, sigs: seq<string>)
  {
    exists i :: 0 <= i < |sigs| && Contains(s, sigs[i])
  }

  // ----- Where an occurrence can lie

  lemma ContainsTail(s: string, t: string, k: nat)
    requires k <= |s| && Contains(s[k..], t)
    ensures Contains(s, t)
  {
    var i: nat :| OccursAt(s[k..], t, i);
    assert s[k..][i..i + |t|] == s[k + i..k + i + |t|];
    assert OccursAt(s, t, k + i);
  }

  /** An occurrence in [c] + b is a prefix of it or lies in b. */
  lemma OccurrenceAfterHead(c: char, b: string, t: string)
    requires Contains([c] + b, t)
    ensures t <= [c] + b || Contains(b, t)
  {
    var i: nat :| OccursAt([c] + b, t, i);
    if i > 0 {
      assert ([c] + b)[i..i + |t|] == b[i - 1..i - 1 + |t|];
      assert OccursAt(b, t, i - 1);
    }
  }

  /** A SUB-free string inside Marker(tag) + b lies in the tag or in b. */
  lemma OccurrenceAfterMarker(b: string, t: string, tag: string)
    requires SubFree(t) && Contains(Marker(tag) + b, t)
    ensures Contains(tag, t) || Contains(b, t)
  {
    var s, m := Marker(tag) + b, |Marker(tag)|;
    var i: nat :| OccursAt(s, t, i);
    if t == "" {
      assert OccursAt(b, t, 0);
    } else if i >= m {
      assert s[m..] == b;
      assert s[i..i + |t|] == s[m..][i - m..i - m + |t|];
      assert OccursAt(b, t, i - m);
    } else {
      OccurrenceInMarker(b, t, tag, i);
    }
  }

  lemma OccurrenceInMarker(b: string, t: string, tag: string, i: nat)
    requires SubFree(t) && t != "" && OccursAt(Marker(tag) + b, t, i) && i < |Marker(tag)|
    ensures Contains(tag, t)
  {
    var s, m := Marker(tag) + b, |Marker(tag)|;
    assert s[0] == SUB && s[m - 1] == SUB;
    assert forall j :: i <= j < i + |t| ==> s[j] == t[j - i] && s[j] != SUB;
    assert 0 < i && i + |t| < m;
    assert s[1..m - 1] == tag;
    assert s[i..i + |t|] == s[1..m - 1][i - 1..i - 1 + |t|];
    assert OccursAt(tag, t, i - 1);
  }

  /** A SUB-free prefix of the result was a prefix of the input. */
  lemma {:induction false} PrefixLift(s: string, sig: string, t: string, tag: string)
    requires sig != "" && SubFree(t)
    requires t <= ReplaceAll(s, sig, Marker(tag))
    ensures t <= s
  {
    if t != "" && s != "" {
      assert t[0] != SUB;
      if !(sig <= s) {
        var r := ReplaceAll(s[1..], sig, Marker(tag));
        assert ([s[0]] + r)[1..] == r;
        assert t[1..] <= r;
        PrefixLift(s[1..], sig, t[1..], tag);
        assert s == [s[0]] + s[1..] && t == [t[0]] + t[1..];
      }
    }
  }

  /** A SUB-free substring of the result was in the input or is part of the tag. */
  lemma {:induction false} SubstringLift(s: string, sig: string, t: string, tag: string)
    requires sig != "" && SubFree(t)
    requires Contains(ReplaceAll(s, sig, Marker(tag)), t)
    ensures Contains(s, t) || Contains(tag, t)
  {
    hide Contains;
    if s == "" {
    } else if sig <= s {
      var rest := s[|sig|..];
      OccurrenceAfterMarker(ReplaceAll(rest, sig, Marker(tag)), t, tag);
      if !Contains(tag, t) {
        SubstringLift(rest, sig, t, tag);
        ContainsTail(s, t, |sig|);
      }
    } else {
      var r := ReplaceAll(s[1..], sig, Marker(tag));
      OccurrenceAfterHead(s[0], r, t);
      if t <= [s[0]] + r {
        PrefixLift(s, sig, t, tag);
        PrefixContained(s, t);
      } else {
        SubstringLift(s[1..], sig, t, tag);
        if Contains(s[1..], t) {
          ContainsTail(s, t, 1);
        }
      }
    }
  }

  lemma PrefixContained(s: string, t: string)
    requires t <= s
    ensures Contains(s, t)
  {
    assert OccursAt(s, t, 0);
  }

  /** One replacement removes its own signature. */
  lemma {:induction false} SignatureGone(s: string, sig: string, tag: string)
    requires Fenced(sig, tag)
    ensures !Contains(ReplaceAll(s, sig, Marker(tag)), sig)
  {
    hide Contains;
    if s == "" {
      EmptyContains(sig);
    } else if sig <= s {
      var r := ReplaceAll(s[|sig|..], sig, Marker(tag));
      SignatureGone(s[|sig|..], sig, tag);
      if Contains(Marker(tag) + r, sig) {
        OccurrenceAfterMarker(r, sig, tag);
      }
    } else {
      var r := ReplaceAll(s[1..], sig, Marker(tag));
      SignatureGone(s[1..], sig, tag);
      if Contains([s[0]] + r, sig) {
        OccurrenceAfterHead(s[0], r, sig);
        PrefixLift(s, sig, sig, tag);
      }
    }
  }

  lemma EmptyContains(t: string)
    ensures Contains("", t) <==> t == ""
  {
    if t == "" {
      assert OccursAt("", t, 0);
    }
  }

  /** Replacing what does not occur changes nothing. */
  lemma {:induction false} ReplaceAbsent(s: string, sig: string, replacement: string)
    requires sig != "" && !Contains(s, sig)
    ensures ReplaceAll(s, sig, replacement) == s
  {
    if s != "" {
      if sig <= s {
        PrefixContained(s, sig);
      } else {
        if Contains(s[1..], sig) {
          ContainsTail(s, sig, 1);
        }
        ReplaceAbsent(s[1..], sig, replacement);
        assert s == [s[0]] + s[1..];
      }
    }
  }

  // ----- Whole passes

  /** After a pass over any fenced list, no signature of the list is left. */
  lemma {:induction false} PassRemovesAll(s: string, sigs: seq<string>, i: nat, tag: string)
    requires AllFenced(sigs, tag) && i < |sigs|
    ensures !Contains(ScrubWith(s, sigs, tag), sigs[i])
  {
    hide Contains, ReplaceAll;
    var k := |sigs| - 1;
    var before := ScrubWith(s, sigs[..k], tag);
    if i == k {
      SignatureGone(before, sigs[k], tag);
    } else {
      PassRemovesAll(s, sigs[..k], i, tag);
      if Contains(ScrubWith(s, sigs, tag), sigs[i]) {
        SubstringLift(before, sigs[k], sigs[i], tag);
      }
    }
  }

  /** Nothing SUB-free is invented: it was in the input or is part of the tag. */
  lemma {:induction false} PassInventsNothing(s: string, sigs: seq<string>, t: string, tag: string)
    requires AllFenced(sigs, tag) && SubFree(t)
    requires Contains(ScrubWith(s, sigs, tag), t)
    ensures Contains(s, t) || Contains(tag, t)
  {
    hide Contains, ReplaceAll;
    if sigs != [] {
      var k := |sigs| - 1;
      SubstringLift(ScrubWith(s, sigs[..k], tag), sigs[k], t, tag);
      if !Contains(tag, t) {
        PassInventsNothing(s, sigs[..k], t, tag);
      }
    }
  }

  lemma {:induction false} PassKeepsClean(s: string, sigs: seq<string>, tag: string)
    requires AllFenced(sigs, tag) && !HasSignature(s, sigs)
    ensures ScrubWith(s, sigs, tag) == s
  {
    hide Contains, ReplaceAll;
    if sigs != [] {
      var k := |sigs| - 1;
      assert !HasSignature(s, sigs[..k]) by {
        forall i | 0 <= i < k ensures !Contains(s, sigs[..k][i]) {
          assert sigs[..k][i] == sigs[i];
        }
      }
      PassKeepsClean(s, sigs[..k], tag);
      ReplaceAbsent(s, sigs[k], Marker(tag));
    }
  }

  /** A pass is the identity exactly on strings without a signature. */
  lemma PassIdentityIff(s: string, sigs: seq<string>, tag: string)
    requires AllFenced(sigs, tag)
    ensures ScrubWith(s, sigs, tag) == s <==> !HasSignature(s, sigs)
  {
    hide Contains, ReplaceAll, ScrubWith;
    if HasSignature(s, sigs) {
      var i :| 0 <= i < |sigs| && Contains(s, sigs[i]);
      PassRemovesAll(s, sigs, i, tag);
    } else {
      PassKeepsClean(s, sigs, tag);
    }
  }

  lemma PassIdempotent(s: string, sigs: seq<string>, tag: string)
    requires AllFenced(sigs, tag)
    ensures ScrubWith(ScrubWith(s, sigs, tag), sigs, tag) == ScrubWith(s, sigs, tag)
  {
    hide Contains, ReplaceAll, ScrubWith;
    var r := ScrubWith(s, sigs, tag);
    forall i | 0 <= i < |sigs| ensures !Contains(r, sigs[i]) {
      PassRemovesAll(s, sigs, i, tag);
    }
    PassKeepsClean(r, sigs, tag);
  }

  // ----- What a pass does to the text, piece by piece

  /** One input character kept, or one occurrence of a signature cut out. */
  datatype Piece = Keep(c: char) | Cut(sig: string)

  /** The text before the pass. */
  function Source(ps: seq<Piece>): string
  {
    if ps == [] then "" else (if ps[0].Keep? then [ps[0].c] else ps[0].sig) + Source(ps[1..])
  }

  /** The text after it, each cut replaced by the marker. */
  function Output(ps: seq<Piece>, tag: string): string
  {
    if ps == [] then "" else (if ps[0].Keep? then [ps[0].c] else Marker(tag)) + Output(ps[1..], tag)
  }

  ghost predicate CutsFrom(ps: seq<Piece>, sigs: seq<string>)
  {
    forall i :: 0 <= i < |ps| && ps[i].Cut? ==> ps[i].sig in sigs
  }

  function Kept(s: string): seq<Piece>
  {
    if s == "" then [] else [Keep(s[0])] + Kept(s[1..])
  }

  lemma {:induction false} KeptText(s: string, tag: string)
    ensures Source(Kept(s)) == s && Output(Kept(s), tag) == s && CutsFrom(Kept(s), [])
  {
    if s != "" {
      KeptText(s[1..], tag);
      assert s == [s[0]] + s[1..];
    }
  }

  lemma {:induction false} SourceConcat(a: seq<Piece>, b: seq<Piece>)
    ensures Source(a + b) == Source(a) + Source(b)
  {
    if a == [] {
      assert a + b == b;
    } else {
      var x := if a[0].Keep? then [a[0].c] else a[0].sig;
      SourceConcat(a[1..], b);
      assert (a + b)[1..] == a[1..] + b;
      assert x + (Source(a[1..]) + Source(b)) == (x + Source(a[1..])) + Source(b);
    }
  }

  lemma {:induction false} OutputConcat(a: seq<Piece>, b: seq<Piece>, tag: string)
    ensures Output(a + b, tag) == Output(a, tag) + Output(b, tag)
  {
    hide Marker;
    if a == [] {
      assert a + b == b;
    } else {
      var x := if a[0].Keep? then [a[0].c] else Marker(tag);
      OutputConcat(a[1..], b, tag);
      assert (a + b)[1..] == a[1..] + b;
      assert x + (Output(a[1..], tag) + Output(b, tag)) == (x + Output(a[1..], tag)) + Output(b, tag);
    }
  }

  /** A SUB-free prefix of the output is spelled by kept characters alone. */
  lemma {:induction false} PrefixIsKept(ps: seq<Piece>, t: string, tag: string)
    requires SubFree(t) && t <= Output(ps, tag)
    ensures |t| <= |ps| && ps[..|t|] == Kept(t)
  {
    if t != "" {
      assert t[0] != SUB;
      if ps[0].Keep? {
        assert Output(ps, tag)[1..] == Output(ps[1..], tag);
        PrefixIsKept(ps[1..], t[1..], tag);
        assert ps[..|t|] == [ps[0]] + ps[1..][..|t|-1];
      }
    }
  }

  /** No fenced signature starts inside a tail of the marker, so a replacement copies it. */
  lemma {:induction false} ReplaceSkipsMarker(k: nat, b: string, sig: string, tag: string)
    requires Fenced(sig, tag) && k <= |Marker(tag)|
    ensures ReplaceAll(Marker(tag)[k..] + b, sig, Marker(tag)) == Marker(tag)[k..] + ReplaceAll(b, sig, Marker(tag))
    decreases |Marker(tag)| - k
  {
    var s := Marker(tag)[k..] + b;
    if k == |Marker(tag)| {
      assert s == b;
    } else {
      if sig <= s {
        PrefixInMarker(k, b, sig, tag);
      }
      ReplaceSkipsMarker(k + 1, b, sig, tag);
      assert s[1..] == Marker(tag)[k + 1..] + b;
      assert Marker(tag)[k..] == [Marker(tag)[k]] + Marker(tag)[k + 1..];
    }
  }

  /** A SUB-free string that starts inside the marker lies inside the tag. */
  lemma PrefixInMarker(k: nat, b: string, t: string, tag: string)
    requires k < |Marker(tag)| && SubFree(t) && t != "" && t <= Marker(tag)[k..] + b
    ensures Contains(tag, t)
  {
    var s, m := Marker(tag)[k..] + b, |Marker(tag)|;
    assert s[m - 1 - k] == SUB;
    assert t[0] == s[0] && t[0] != SUB;
    assert forall j :: 0 <= j < |t| ==> s[j] == t[j] && t[j] != SUB;
    assert k + |t| < m;
    assert t == tag[k - 1..k - 1 + |t|];
    assert OccursAt(tag, t, k - 1);
  }

  /** Cuts, left to right, every run of kept characters that spells sig. */
  function CutAll(ps: seq<Piece>, sig: string): seq<Piece>
    requires sig != ""
  {
    if ps == [] then []
    else if |sig| <= |ps| && ps[..|sig|] == Kept(sig) then [Cut(sig)] + CutAll(ps[|sig|..], sig)
    else [ps[0]] + CutAll(ps[1..], sig)
  }

  /** Cutting pieces is what the string replacement does, and leaves the source alone. */
  lemma {:induction false} CutAllIsReplace(ps: seq<Piece>, sig: string, tag: string)
    requires Fenced(sig, tag)
    ensures Output(CutAll(ps, sig), tag) == ReplaceAll(Output(ps, tag), sig, Marker(tag))
    ensures Source(CutAll(ps, sig)) == Source(ps)
  {
    hide Contains;
    if ps != [] {
      var out := Output(ps, tag);
      if |sig| <= |ps| && ps[..|sig|] == Kept(sig) {
        var rest := ps[|sig|..];
        assert ps == Kept(sig) + rest;
        KeptText(sig, tag);
        SourceConcat(Kept(sig), rest);
        OutputConcat(Kept(sig), rest, tag);
        CutAllIsReplace(rest, sig, tag);
        assert out[|sig|..] == Output(rest, tag);
        assert CutAll(ps, sig)[1..] == CutAll(rest, sig);
      } else {
        if sig <= out {
          PrefixIsKept(ps, sig, tag);
        }
        CutAllIsReplace(ps[1..], sig, tag);
        assert CutAll(ps, sig)[1..] == CutAll(ps[1..], sig);
        if ps[0].Keep? {
          assert out[1..] == Output(ps[1..], tag);
        } else {
          ReplaceSkipsMarker(0, Output(ps[1..], tag), sig, tag);
          assert Marker(tag)[0..] == Marker(tag);
        }
      }
    }
  }

  lemma {:induction false} CutAllFrom(ps: seq<Piece>, sig: string, sigs: seq<string>)
    requires sig != "" && CutsFrom(ps, sigs) && sig in sigs
    ensures CutsFrom(CutAll(ps, sig), sigs)
  {
    if ps != [] {
      if |sig| <= |ps| && ps[..|sig|] == Kept(sig) {
        CutAllFrom(ps[|sig|..], sig, sigs);
      } else {
        CutAllFrom(ps[1..], sig, sigs);
      }
    }
  }

  // ----- Which occurrences are cut

  function Length(x: Piece): nat
  {
    if x.Keep? then 1 else |x.sig|
  }

  /** The pieces cut sig out of the text at position p. */
  predicate HasCut(ps: seq<Piece>, p: int, sig: string)
  {
    ps != [] && ((p == 0 && ps[0] == Cut(sig)) || HasCut(ps[1..], p - Length(ps[0]), sig))
  }

  /** Two stretches of text, each given by start and length, share a character. */
  predicate Overlap(p: int, m: nat, i: int, n: nat)
  {
    p < i + n && i < p + m
  }

  ghost predicate NoEmptyCut(ps: seq<Piece>)
  {
    forall i :: 0 <= i < |ps| && ps[i].Cut? ==> ps[i].sig != ""
  }

  /** A cut that keeps the occurrence of sig at i from being cut, or is that cut: of what is
      in `first`, or of sig itself and no further right. */
  ghost predicate Wins(ps: seq<Piece>, first: seq<string>, sig: string, i: int, p: int, c: string)
  {
    HasCut(ps, p, c) && Overlap(p, |c|, i, |sig|) && (c in first || (c == sig && p <= i))
  }

  /** Every occurrence of a signature is cut, or overlaps a cut of an earlier signature or of
      the same one further left. */
  ghost predicate Ordered(ps: seq<Piece>, sigs: seq<string>)
  {
    forall k: nat, i: nat :: k < |sigs| && OccursAt(Source(ps), sigs[k], i) ==>
      exists p, c :: Wins(ps, sigs[..k], sigs[k], i, p, c)
  }

  lemma {:induction false} HasCutIs(ps: seq<Piece>, p: int, sig: string)
    requires HasCut(ps, p, sig)
    ensures p >= 0 && OccursAt(Source(ps), sig, p) && exists k :: 0 <= k < |ps| && ps[k] == Cut(sig)
  {
    if !(p == 0 && ps[0] == Cut(sig)) {
      var n := Length(ps[0]);
      HasCutIs(ps[1..], p - n, sig);
      var k :| 0 <= k < |ps[1..]| && ps[1..][k] == Cut(sig);
      assert ps[k + 1] == Cut(sig);
      var head, rest := if ps[0].Keep? then [ps[0].c] else ps[0].sig, Source(ps[1..]);
      assert (head + rest)[p..p + |sig|] == rest[p - n..p - n + |sig|];
    }
  }

  lemma HasCutCons(x: Piece, ps: seq<Piece>, p: int, c: string)
    ensures HasCut([x] + ps, p, c) <==> (p == 0 && x == Cut(c)) || HasCut(ps, p - Length(x), c)
  {
    assert ([x] + ps)[1..] == ps;
  }

  lemma {:induction false} KeptShifts(t: string, rest: seq<Piece>, p: int, c: string)
    ensures HasCut(Kept(t) + rest, p, c) <==> HasCut(rest, p - |t|, c)
  {
    hide HasCut;
    if t == "" {
      assert Kept(t) + rest == rest;
    } else {
      KeptShifts(t[1..], rest, p - 1, c);
      assert Kept(t) + rest == [Keep(t[0])] + (Kept(t[1..]) + rest);
      HasCutCons(Keep(t[0]), Kept(t[1..]) + rest, p, c);
    }
  }

  /** Cutting keeps the cuts that are there. */
  lemma {:induction false} CutAllKeepsCuts(ps: seq<Piece>, sig: string, p: int, c: string)
    requires sig != "" && HasCut(ps, p, c)
    ensures HasCut(CutAll(ps, sig), p, c)
  {
    if |sig| <= |ps| && ps[..|sig|] == Kept(sig) {
      var rest := ps[|sig|..];
      assert ps == Kept(sig) + rest;
      KeptShifts(sig, rest, p, c);
      CutAllKeepsCuts(rest, sig, p - |sig|, c);
      assert CutAll(ps, sig)[1..] == CutAll(rest, sig);
    } else {
      assert CutAll(ps, sig)[1..] == CutAll(ps[1..], sig);
      if !(p == 0 && ps[0] == Cut(c)) {
        CutAllKeepsCuts(ps[1..], sig, p - Length(ps[0]), c);
      }
    }
  }

  /** Text at the front of the source is all kept, or a cut reaches into it. */
  lemma {:induction false} KeptOrCut(ps: seq<Piece>, t: string) returns (p: int, c: string)
    requires NoEmptyCut(ps) && t <= Source(ps) && !(|t| <= |ps| && ps[..|t|] == Kept(t))
    ensures HasCut(ps, p, c) && 0 <= p < |t| && c != ""
  {
    assert t != "";
    if ps[0].Cut? {
      p, c := 0, ps[0].sig;
    } else {
      assert Source(ps)[1..] == Source(ps[1..]) && t[1..] <= Source(ps[1..]);
      assert |t| <= |ps| ==> ps[..|t|] == [ps[0]] + ps[1..][..|t| - 1];
      p, c := KeptOrCut(ps[1..], t[1..]);
      p := p + 1;
    }
  }

  lemma OccursShift(head: string, rest: string, t: string, i: nat)
    requires OccursAt(head + rest, t, i) && i >= |head|
    ensures OccursAt(rest, t, i - |head|)
  {
    assert (head + rest)[i..i + |t|] == rest[i - |head|..i - |head| + |t|];
  }

  lemma SourceCons(x: Piece, ps: seq<Piece>)
    ensures Source([x] + ps) == (if x.Keep? then [x.c] else x.sig) + Source(ps)
  {
    assert ([x] + ps)[1..] == ps;
  }

  /** After cutting sig left to right, each of its occurrences is cut, or overlaps a cut that
      was there or one of sig further left. */
  lemma {:induction false} CutAllOrdered(ps: seq<Piece>, sig: string, i: nat) returns (p: int, c: string)
    requires sig != "" && NoEmptyCut(ps) && OccursAt(Source(ps), sig, i)
    ensures HasCut(CutAll(ps, sig), p, c) && Overlap(p, |c|, i, |sig|)
    ensures HasCut(ps, p, c) || (c == sig && p <= i)
    decreases |ps|
  {
    hide HasCut, Source, Kept, OccursAt;
    assert ps != [] by { SomewhereOccurs(ps, sig, i); }
    if |sig| <= |ps| && ps[..|sig|] == Kept(sig) {
      var rest := ps[|sig|..];
      assert ps == Kept(sig) + rest && CutAll(ps, sig) == [Cut(sig)] + CutAll(rest, sig);
      if i < |sig| {
        p, c := 0, sig;
      } else {
        KeptText(sig, "");
        SourceConcat(Kept(sig), rest);
        OccursShift(sig, Source(rest), sig, i);
        p, c := CutAllOrdered(rest, sig, i - |sig|);
        p := p + |sig|;
        KeptShifts(sig, rest, p, c);
      }
      HasCutCons(Cut(sig), CutAll(rest, sig), p, c);
    } else {
      p, c := CutLater(ps, sig, i);
    }
  }

  lemma SomewhereOccurs(ps: seq<Piece>, sig: string, i: nat)
    requires sig != "" && OccursAt(Source(ps), sig, i)
    ensures ps != []
  {
  }

  lemma {:induction false} CutLater(ps: seq<Piece>, sig: string, i: nat) returns (p: int, c: string)
    requires sig != "" && NoEmptyCut(ps) && OccursAt(Source(ps), sig, i)
    requires ps != [] && !(|sig| <= |ps| && ps[..|sig|] == Kept(sig))
    ensures HasCut(CutAll(ps, sig), p, c) && Overlap(p, |c|, i, |sig|)
    ensures HasCut(ps, p, c) || (c == sig && p <= i)
    decreases |ps|, 0
  {
    hide HasCut, Source, Kept;
    var x, rest := ps[0], ps[1..];
    var head := if x.Keep? then [x.c] else x.sig;
    assert ps == [x] + rest && CutAll(ps, sig) == [x] + CutAll(rest, sig);
    SourceCons(x, rest);
    if i >= |head| {
      OccursShift(head, Source(rest), sig, i);
      p, c := CutAllOrdered(rest, sig, i - |head|);
      p := p + |head|;
      HasCutCons(x, rest, p, c);
    } else if x.Cut? {
      p, c := 0, x.sig;
      HasCutCons(x, rest, p, c);
    } else {
      assert sig <= Source(ps);
      p, c := KeptOrCut(ps, sig);
      CutAllKeepsCuts(ps, sig, p, c);
    }
    HasCutCons(x, CutAll(rest, sig), p, c);
  }

  lemma NoEmptyCuts(ps: seq<Piece>, sigs: seq<string>)
    requires CutsFrom(ps, sigs) && forall i :: 0 <= i < |sigs| ==> sigs[i] != ""
    ensures NoEmptyCut(ps)
  {
  }

  /** One more signature on the list. */
  lemma CutAllStep(qs: seq<Piece>, sigs: seq<string>)
    requires sigs != [] && (forall i :: 0 <= i < |sigs| ==> sigs[i] != "")
    requires CutsFrom(qs, sigs[..|sigs|-1]) && Ordered(qs, sigs[..|sigs|-1])
    requires Source(CutAll(qs, sigs[|sigs|-1])) == Source(qs)
    ensures Ordered(CutAll(qs, sigs[|sigs|-1]), sigs)
  {
    hide CutAll, Source, OccursAt;
    var n := |sigs| - 1;
    var before, ps := sigs[..n], CutAll(qs, sigs[n]);
    NoEmptyCuts(qs, before);
    forall k: nat, i: nat | k < |sigs| && OccursAt(Source(ps), sigs[k], i)
      ensures exists p, c :: Wins(ps, sigs[..k], sigs[k], i, p, c)
    {
      if k < n {
        assert before[k] == sigs[k] && before[..k] == sigs[..k];
        var p, c :| Wins(qs, before[..k], before[k], i, p, c);
        CutAllKeepsCuts(qs, sigs[n], p, c);
        assert Wins(ps, sigs[..k], sigs[k], i, p, c);
      } else {
        var p, c := CutAllOrdered(qs, sigs[n], i);
        if HasCut(qs, p, c) {
          HasCutIs(qs, p, c);
        }
        assert Wins(ps, sigs[..k], sigs[k], i, p, c);
      }
    }
  }

  /** A pass only cuts out occurrences of listed signatures, and leaves one in only for a
      cut that comes before it: the input splits into kept characters and signatures so
      that the output is the kept characters with a marker for each signature. */
  lemma {:induction false} PassOnlyCuts(s: string, sigs: seq<string>, tag: string) returns (ps: seq<Piece>)
    requires AllFenced(sigs, tag)
    ensures Source(ps) == s && Output(ps, tag) == ScrubWith(s, sigs, tag) && CutsFrom(ps, sigs) && Ordered(ps, sigs)
  {
    hide Contains, ReplaceAll, Ordered;
    if sigs == [] {
      ps := Kept(s);
      KeptText(s, tag);
      NothingOrdered(ps);
    } else {
      var k := |sigs| - 1;
      var qs := PassOnlyCuts(s, sigs[..k], tag);
      CutAllIsReplace(qs, sigs[k], tag);
      CutAllStep(qs, sigs);
      CutAllFrom(qs, sigs[k], sigs);
      ps := CutAll(qs, sigs[k]);
    }
  }

  lemma NothingOrdered(ps: seq<Piece>)
    ensures Ordered(ps, [])
  {
  }

  // ----- There is one such way to cut

  lemma {:induction false} CutsDisjoint(ps: seq<Piece>, p: int, c: string, q: int, d: string)
    requires HasCut(ps, p, c) && HasCut(ps, q, d) && Overlap(p, |c|, q, |d|)
    ensures p == q && c == d
  {
    var n := Length(ps[0]);
    if p == 0 && ps[0] == Cut(c) {
      if !(q == 0 && ps[0] == Cut(d)) {
        HasCutIs(ps[1..], q - n, d);
      }
    } else if q == 0 && ps[0] == Cut(d) {
      HasCutIs(ps[1..], p - n, c);
    } else {
      CutsDisjoint(ps[1..], p - n, c, q - n, d);
    }
  }

  /** What one way cuts, by signature and position, the other cuts too. */
  lemma {:induction false} SameCut(ps: seq<Piece>, qs: seq<Piece>, sigs: seq<string>, k: nat, p: nat)
    requires Source(ps) == Source(qs) && Ordered(ps, sigs) && Ordered(qs, sigs)
    requires k < |sigs| && HasCut(ps, p, sigs[k])
    ensures HasCut(qs, p, sigs[k])
    decreases k, p
  {
    hide HasCut, Ordered, Source, OccursAt;
    HasCutIs(ps, p, sigs[k]);
    var q, d := Winner(qs, sigs, k, p);
    HasCutIs(qs, q, d);
    if d in sigs[..k] {
      var j :| 0 <= j < k && sigs[j] == d;
      SameCut(qs, ps, sigs, j, q);
      CutsDisjoint(ps, p, sigs[k], q, d);
    } else if q < p {
      SameCut(qs, ps, sigs, k, q);
      CutsDisjoint(ps, p, sigs[k], q, d);
    }
  }

  lemma Winner(ps: seq<Piece>, sigs: seq<string>, k: nat, i: nat) returns (p: int, c: string)
    requires Ordered(ps, sigs) && k < |sigs| && OccursAt(Source(ps), sigs[k], i)
    ensures HasCut(ps, p, c) && Overlap(p, |c|, i, |sigs[k]|) && (c in sigs[..k] || (c == sigs[k] && p <= i))
  {
    hide HasCut, OccursAt, Source;
    p, c :| Wins(ps, sigs[..k], sigs[k], i, p, c);
  }

  ghost predicate SameCuts(ps: seq<Piece>, qs: seq<Piece>)
  {
    forall p, c :: HasCut(ps, p, c) <==> HasCut(qs, p, c)
  }

  lemma SameHead(ps: seq<Piece>, qs: seq<Piece>)
    requires NoEmptyCut(ps) && NoEmptyCut(qs) && Source(ps) == Source(qs) && SameCuts(ps, qs) && ps != [] && qs != []
    ensures ps[0] == qs[0]
  {
    if ps[0].Cut? {
      assert HasCut(ps, 0, ps[0].sig);
      HeadCut(qs, ps[0].sig);
    } else if qs[0].Cut? {
      assert HasCut(qs, 0, qs[0].sig);
      HeadCut(ps, qs[0].sig);
    } else {
      assert Source(ps)[0] == ps[0].c && Source(qs)[0] == qs[0].c;
    }
  }

  lemma HeadCut(ps: seq<Piece>, c: string)
    requires NoEmptyCut(ps) && HasCut(ps, 0, c)
    ensures ps[0] == Cut(c)
  {
    if ps[0] != Cut(c) {
      HasCutIs(ps[1..], 0 - Length(ps[0]), c);
    }
  }

  /** The cuts and the text determine the pieces. */
  lemma {:induction false} CutsDetermine(ps: seq<Piece>, qs: seq<Piece>)
    requires NoEmptyCut(ps) && NoEmptyCut(qs) && Source(ps) == Source(qs) && SameCuts(ps, qs)
    ensures ps == qs
  {
    if ps == [] || qs == [] {
      assert Source([]) == "";
    } else {
      SameHead(ps, qs);
      var head := if ps[0].Keep? then [ps[0].c] else ps[0].sig;
      assert Source(ps)[|head|..] == Source(ps[1..]) && Source(qs)[|head|..] == Source(qs[1..]);
      TailCuts(ps, qs);
      CutsDetermine(ps[1..], qs[1..]);
      assert ps == [ps[0]] + ps[1..] && qs == [qs[0]] + qs[1..];
    }
  }

  lemma TailCuts(ps: seq<Piece>, qs: seq<Piece>)
    requires NoEmptyCut(ps) && NoEmptyCut(qs) && SameCuts(ps, qs) && ps != [] && qs != [] && ps[0] == qs[0]
    ensures SameCuts(ps[1..], qs[1..])
  {
    hide HasCut, NoEmptyCut;
    forall p, c ensures HasCut(ps[1..], p, c) <==> HasCut(qs[1..], p, c) {
      TailCut(ps, p, c);
      TailCut(qs, p, c);
      assert HasCut(ps, p + Length(ps[0]), c) <==> HasCut(qs, p + Length(ps[0]), c);
    }
  }

  lemma TailCut(ps: seq<Piece>, p: int, c: string)
    requires NoEmptyCut(ps) && ps != []
    ensures HasCut(ps[1..], p, c) <==> p >= 0 && HasCut(ps, p + Length(ps[0]), c)
  {
    if HasCut(ps[1..], p, c) {
      HasCutIs(ps[1..], p, c);
    }
  }

  /** There is one way to cut listed signatures in order, so the condition says exactly
      what the text becomes. */
  lemma OrderedCutsUnique(ps: seq<Piece>, qs: seq<Piece>, sigs: seq<string>)
    requires forall i :: 0 <= i < |sigs| ==> sigs[i] != ""
    requires Source(ps) == Source(qs) && CutsFrom(ps, sigs) && CutsFrom(qs, sigs)
    requires Ordered(ps, sigs) && Ordered(qs, sigs)
    ensures ps == qs
  {
    hide HasCut, Ordered, Source, OccursAt;
    NoEmptyCuts(ps, sigs);
    NoEmptyCuts(qs, sigs);
    forall p, c ensures HasCut(ps, p, c) <==> HasCut(qs, p, c) {
      if HasCut(ps, p, c) {
        HasCutIs(ps, p, c);
        var k :| 0 <= k < |sigs| && sigs[k] == c;
        SameCut(ps, qs, sigs, k, p);
      }
      if HasCut(qs, p, c) {
        HasCutIs(qs, p, c);
        var k :| 0 <= k < |sigs| && sigs[k] == c;
        SameCut(qs, ps, sigs, k, p);
      }
    }
    CutsDetermine(ps, qs);
  }

  // ----- The protected list

  lemma ContainedCharacter(s: string, t: string, k: nat)
    requires Contains(s, t) && k < |t|
    ensures t[k] in s
  {
    var i: nat :| OccursAt(s, t, i);
    assert s[i + k] == t[k];
  }

  predicate TagLetter(c: char)
  {
    c == '[' || c == 'N' || c == 'E' || c == 'X' || c == 'U' || c == 'S' || c == '_' ||
    c == 'R' || c == 'D' || c == 'A' || c == 'C' || c == 'T' || c == ']'
  }

  lemma TagLetters()
    ensures forall c :: c in TAG ==> TagLetter(c)
  {
  }

  /** A SUB-free string with a character the tag lacks is fenced. */
  lemma ForeignCharacter(sig: string, k: nat)
    requires k < |sig| && !TagLetter(sig[k]) && SubFree(sig)
    ensures Fenced(sig, TAG)
  {
    TagLetters();
    if Contains(TAG, sig) {
      ContainedCharacter(TAG, sig, k);
    }
  }

  lemma SqlFenced()
    ensures AllFenced(SQL_SIGNATURES, TAG)
  {
    hide Fenced;
    ForeignCharacter("SQLSTATE", 1);
    ForeignCharacter("ERROR:", 5);
    ForeignCharacter("pq:", 0);
  }

  lemma RuntimeFenced()
    ensures AllFenced(RUNTIME_SIGNATURES, TAG)
  {
    hide Fenced;
    ForeignCharacter("goroutine ", 0);
    ForeignCharacter(".go:", 0);
    ForeignCharacter("/Users/", 0);
    ForeignCharacter("/home/", 0);
  }

  lemma HostFenced()
    ensures AllFenced(HOST_SIGNATURES, TAG)
  {
    hide Fenced;
    ForeignCharacter("127.0.0.1", 0);
    ForeignCharacter("localhost", 0);
    ForeignCharacter("metadata.google.internal", 0);
  }

  lemma TokenFenced()
    ensures AllFenced(TOKEN_SIGNATURES, TAG)
  {
    hide Fenced;
    ForeignCharacter("sk-", 0);
    ForeignCharacter("xoxb-", 0);
    ForeignCharacter("ghp_", 0);
    ForeignCharacter("postgres://", 0);
    ForeignCharacter("clickhouse://", 0);
  }

  lemma SecretFenced()
    ensures AllFenced(SECRET_SIGNATURES, TAG)
  {
    hide Fenced;
    ForeignCharacter("redis://", 0);
    ForeignCharacter("AKIA", 1);
    ForeignCharacter("PRIVATE KEY", 0);
  }

  lemma ContentFenced()
    ensures AllFenced(CONTENT_SIGNATURES, TAG)
  {
    hide Fenced;
    ForeignCharacter("prompt_content=", 0);
    ForeignCharacter("messages=[", 0);
    ForeignCharacter("org_id=", 0);
  }

  lemma ProtectedFenced()
    ensures AllFenced(PROTECTED, TAG)
  {
    hide Fenced;
    SqlFenced();
    RuntimeFenced();
    HostFenced();
    TokenFenced();
    SecretFenced();
    ContentFenced();
  }

  /** Scrub: no protected signature survives; the rest of the text is untouched. */
  method Scrub(s: string) returns (r: string)
    ensures forall i :: 0 <= i < |PROTECTED| ==> !Contains(r, PROTECTED[i])
    ensures r == s <==> !HasSignature(s, PROTECTED)
    ensures exists ps :: Source(ps) == s && Output(ps, TAG) == r && CutsFrom(ps, PROTECTED) && Ordered(ps, PROTECTED)
  {
    hide Contains, ReplaceAll, Ordered;
    ProtectedFenced();
    r := s;
    for i := 0 to |PROTECTED|
      invariant r == ScrubWith(s, PROTECTED[..i], TAG)
    {
      assert PROTECTED[..i + 1][..i] == PROTECTED[..i];
      r := ReplaceAll(r, PROTECTED[i], Marker(TAG));
    }
    assert PROTECTED[..|PROTECTED|] == PROTECTED;
    forall i | 0 <= i < |PROTECTED| ensures !Contains(r, PROTECTED[i]) {
      PassRemovesAll(s, PROTECTED, i, TAG);
    }
    PassIdentityIff(s, PROTECTED, TAG);
    var ps := PassOnlyCuts(s, PROTECTED, TAG);
  }
}
