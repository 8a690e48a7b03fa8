/** String operations shared by the modules that parse and print: splitting on a
    single character, joining, and trimming white space. */
module Text {

  // ----- Split and join on one character

  /** strings.Split for a one-character separator. */
  function Split(s: string, sep: char): (parts: seq<string>)
    ensures |parts| >= 1
    ensures forall i :: 0 <= i < |parts| ==> sep !in parts[i]
  {
    if s == [] then [""]
    else
      var rest := Split(s[1..], sep);
      if s[0] == sep then [""] + rest else [[s[0]] + rest[0]] + rest[1..]
  }

  /** strings.Join for a one-character separator. */
  function Join(parts: seq<string>, sep: char): string
  {
    if parts == [] then ""
    else if |parts| == 1 then parts[0]
    else parts[0] + [sep] + Join(parts[1..], sep)
  }

  function Occurrences(s: string, c: char): nat
  {
    if s == [] then 0 else (if s[0] == c then 1 else 0) + Occurrences(s[1..], c)
  }

  ghost predicate AllFree(parts: seq<string>, sep: char)
  {
    forall i :: 0 <= i < |parts| ==> sep !in parts[i]
  }

  lemma {:induction false} SplitWhole(a: string, sep: char)
    requires sep !in a
    ensures Split(a, sep) == [a]
  {
    if a != [] {
      SplitWhole(a[1..], sep);
      assert [a[0]] + a[1..] == a;
    }
  }

  lemma {:induction false} SplitFirst(a: string, rest: string, sep: char)
    requires sep !in a
    ensures Split(a + [sep] + rest, sep) == [a] + Split(rest, sep)
  {
    var s := a + [sep] + rest;
    if a == [] {
      assert s[1..] == rest;
    } else {
      SplitFirst(a[1..], rest, sep);
      assert s[1..] == a[1..] + [sep] + rest;
      assert [a[0]] + a[1..] == a;
    }
  }

  /** Splitting undoes joining when no part contains the separator. */
  lemma {:induction false} SplitOfJoin(parts: seq<string>, sep: char)
    requires parts != [] && AllFree(parts, sep)
    ensures Split(Join(parts, sep), sep) == parts
  {
    if |parts| == 1 {
      SplitWhole(parts[0], sep);
    } else {
      SplitOfJoin(parts[1..], sep);
      SplitFirst(parts[0], Join(parts[1..], sep), sep);
      assert [parts[0]] + parts[1..] == parts;
    }
  }

  /** Joining undoes splitting on every string. */
  lemma {:induction false} JoinOfSplit(s: string, sep: char)
    ensures Join(Split(s, sep), sep) == s
  {
    if s != [] {
      JoinOfSplit(s[1..], sep);
      var rest := Split(s[1..], sep);
      if s[0] == sep {
        assert ([""] + rest)[1..] == rest;
        assert Join([""] + rest, sep) == [sep] + s[1..];
      } else {
        var parts := Split(s, sep);
        assert parts[1..] == rest[1..];
        assert |parts| == |rest|;
        if |rest| > 1 {
          assert Join(parts, sep) == [s[0]] + (rest[0] + [sep] + Join(rest[1..], sep));
        }
      }
    }
  }

  /** The parts hold no character the string does not. */
  lemma {:induction false} SplitCharacters(s: string, sep: char, i: nat)
    requires i < |Split(s, sep)|
    ensures forall c :: c in Split(s, sep)[i] ==> c in s
  {
    if s != [] {
      var rest := Split(s[1..], sep);
      if s[0] == sep {
        if i > 0 {
          SplitCharacters(s[1..], sep, i - 1);
        }
      } else {
        SplitCharacters(s[1..], sep, i);
      }
    }
  }

  lemma {:induction false} SplitCount(s: string, sep: char)
    ensures |Split(s, sep)| == 1 + Occurrences(s, sep)
  {
    if s != [] {
      SplitCount(s[1..], sep);
    }
  }

  lemma {:induction false} OccurrencesConcat(a: string, b: string, c: char)
    ensures Occurrences(a + b, c) == Occurrences(a, c) + Occurrences(b, c)
  {
    if a == [] {
      assert a + b == b;
    } else {
      OccurrencesConcat(a[1..], b, c);
      assert (a + b)[1..] == a[1..] + b;
    }
  }

  lemma {:induction false} OccurrencesZero(s: string, c: char)
    ensures Occurrences(s, c) == 0 <==> c !in s
  {
    if s != [] {
      OccurrencesZero(s[1..], c);
      assert s == [s[0]] + s[1..];
    }
  }

  // ----- White space

  /** unicode.IsSpace. */
  predicate IsSpace(c: char)
  {
    c == '\t' || c == '\n' || c == '\U{0B}' || c == '\U{0C}' || c == '\r' || c == ' ' ||
    c == '\U{85}' || c == '\U{A0}' || c == '\U{1680}' || '\U{2000}' <= c <= '\U{200A}' ||
    c == '\U{2028}' || c == '\U{2029}' || c == '\U{202F}' || c == '\U{205F}' || c == '\U{3000}'
  }

  /** Removes the leading characters that satisfy `drop`. */
  function TrimLeft(s: string, drop: char -> bool): string
  {
    if s != [] && drop(s[0]) then TrimLeft(s[1..], drop) else s
  }

  /** Removes the trailing characters that satisfy `drop`. */
  function TrimRight(s: string, drop: char -> bool): string
  {
    if s != [] && drop(s[|s|-1]) then TrimRight(s[..|s|-1], drop) else s
  }

  function Trim(s: string, drop: char -> bool): string
  {
    TrimRight(TrimLeft(s, drop), drop)
  }

  /** strings.TrimSpace. */
  function TrimSpace(s: string): string
  {
    Trim(s, IsSpace)
  }

  /** Neither end of `s` satisfies `drop`. */
  predicate Trimmed(s: string, drop: char -> bool)
  {
    s != [] ==> !drop(s[0]) && !drop(s[|s|-1])
  }

  /** Trimming cuts out a contiguous piece, and everything cut off satisfies `drop`. */
  lemma {:induction false} TrimLeftCut(s: string, drop: char -> bool) returns (cut: string)
    ensures s == cut + TrimLeft(s, drop)
    ensures forall c :: c in cut ==> drop(c)
    ensures TrimLeft(s, drop) != [] ==> !drop(TrimLeft(s, drop)[0])
  {
    if s != [] && drop(s[0]) {
      var rest := TrimLeft(s[1..], drop);
      var c := TrimLeftCut(s[1..], drop);
      assert TrimLeft(s, drop) == rest;
      hide TrimLeft;
      cut := [s[0]] + c;
      assert s == [s[0]] + s[1..];
      assert [s[0]] + (c + rest) == cut + rest;
    } else {
      cut := "";
    }
  }

  lemma {:induction false} TrimRightCut(s: string, drop: char -> bool) returns (cut: string)
    ensures s == TrimRight(s, drop) + cut
    ensures forall c :: c in cut ==> drop(c)
    ensures TrimRight(s, drop) != [] ==> !drop(TrimRight(s, drop)[|TrimRight(s, drop)|-1])
  {
    if s != [] && drop(s[|s|-1]) {
      var c := TrimRightCut(s[..|s|-1], drop);
      cut := c + [s[|s|-1]];
      assert s == s[..|s|-1] + [s[|s|-1]];
    } else {
      cut := "";
    }
  }

  /** Trim is the one way to write `s` as padding, a trimmed core, padding. */
  lemma TrimCut(s: string, drop: char -> bool) returns (pre: string, post: string)
    ensures s == pre + Trim(s, drop) + post
    ensures forall c :: c in pre ==> drop(c)
    ensures forall c :: c in post ==> drop(c)
    ensures Trimmed(Trim(s, drop), drop)
  {
    pre := TrimLeftCut(s, drop);
    var mid := TrimLeft(s, drop);
    post := TrimRightCut(mid, drop);
    assert Trim(s, drop) <= mid;
  }

  lemma TrimNoop(s: string, drop: char -> bool)
    ensures Trim(s, drop) == s <==> Trimmed(s, drop)
  {
    if Trim(s, drop) == s {
      var pre, post := TrimCut(s, drop);
    }
  }

  /** Trimming never introduces a character. */
  lemma TrimKeepsOut(s: string, drop: char -> bool, c: char)
    requires c !in s
    ensures c !in Trim(s, drop)
  {
    var pre, post := TrimCut(s, drop);
  }

  /** Padding around a trimmed core is exactly what Trim removes. */
  lemma {:induction false} TrimLeftPadded(pre: string, rest: string, drop: char -> bool)
    requires forall c :: c in pre ==> drop(c)
    ensures TrimLeft(pre + rest, drop) == TrimLeft(rest, drop)
  {
    if pre == "" {
      assert pre + rest == rest;
    } else {
      assert pre[0] in pre;
      TrimLeftPadded(pre[1..], rest, drop);
      assert (pre + rest)[1..] == pre[1..] + rest;
    }
  }

  lemma {:induction false} TrimRightPadded(rest: string, post: string, drop: char -> bool)
    requires forall c :: c in post ==> drop(c)
    ensures TrimRight(rest + post, drop) == TrimRight(rest, drop)
  {
    if post == "" {
      assert rest + post == rest;
    } else {
      var n := |post| - 1;
      assert post[n] in post;
      TrimRightPadded(rest, post[..n], drop);
      assert (rest + post)[..|rest + post| - 1] == rest + post[..n];
    }
  }

  lemma TrimUnique(pre: string, core: string, post: string, drop: char -> bool)
    requires forall c :: c in pre ==> drop(c)
    requires forall c :: c in post ==> drop(c)
    requires Trimmed(core, drop)
    ensures Trim(pre + core + post, drop) == core
  {
    assert pre + core + post == pre + (core + post);
    TrimLeftPadded(pre, core + post, drop);
    if core == "" {
      assert core + post == post + "";
      TrimLeftPadded(post, "", drop);
    } else {
      TrimRightPadded(core, post, drop);
    }
  }

  /** The trimmed parts that are not empty. */
  function TrimmedParts(parts: seq<string>, drop: char -> bool): seq<string>
  {
    if parts == [] then []
    else
      var t := Trim(parts[0], drop);
      (if t == "" then [] else [t]) + TrimmedParts(parts[1..], drop)
  }

  lemma {:induction false} TrimmedPartsMembers(parts: seq<string>, drop: char -> bool)
    ensures forall t :: t in TrimmedParts(parts, drop) <==>
              t != "" && exists i :: 0 <= i < |parts| && t == Trim(parts[i], drop)
    ensures forall t :: t in TrimmedParts(parts, drop) ==> Trimmed(t, drop)
  {
    hide Trim;
    if parts != [] {
      TrimmedPartsMembers(parts[1..], drop);
      var pre, post := TrimCut(parts[0], drop);
      assert forall i :: 1 <= i < |parts| ==> parts[i] == parts[1..][i - 1];
      forall t | t in TrimmedParts(parts, drop) ensures exists i :: 0 <= i < |parts| && t == Trim(parts[i], drop) {
        if t in TrimmedParts(parts[1..], drop) {
          var i :| 0 <= i < |parts[1..]| && t == Trim(parts[1..][i], drop);
          assert t == Trim(parts[i + 1], drop);
        }
      }
    }
  }

  /** Parts that are trimmed and not empty already are kept as they are. */
  lemma {:induction false} TrimmedPartsNoop(parts: seq<string>, drop: char -> bool)
    requires forall i :: 0 <= i < |parts| ==> parts[i] != "" && Trimmed(parts[i], drop)
    ensures TrimmedParts(parts, drop) == parts
  {
    if parts != [] {
      TrimNoop(parts[0], drop);
      TrimmedPartsNoop(parts[1..], drop);
      assert parts == [parts[0]] + parts[1..];
    }
  }

  // ----- What trimming the parts means

  ghost predicate AllDropped(s: string, drop: char -> bool)
  {
    forall c :: c in s ==> drop(c)
  }

  /** The part is the name with nothing but padding around it. */
  ghost predicate Padded(part: string, name: string, drop: char -> bool)
  {
    && name != "" && Trimmed(name, drop)
    && exists pre, post :: part == pre + name + post && AllDropped(pre, drop) && AllDropped(post, drop)
  }

  /** The parts spell the names in order, each padded, with any blank parts between them. */
  ghost predicate Spell(parts: seq<string>, names: seq<string>, drop: char -> bool)
    decreases |parts|
  {
    if parts == [] then names == []
    else
      || (AllDropped(parts[0], drop) && Spell(parts[1..], names, drop))
      || (names != [] && Padded(parts[0], names[0], drop) && Spell(parts[1..], names[1..], drop))
  }

  lemma TrimBlank(s: string, drop: char -> bool)
    ensures Trim(s, drop) == "" <==> AllDropped(s, drop)
  {
    if AllDropped(s, drop) {
      assert s == s + "" + "";
      TrimUnique(s, "", "", drop);
    } else {
      var pre, post := TrimCut(s, drop);
    }
  }

  lemma TrimPadded(part: string, name: string, drop: char -> bool)
    requires name != ""
    ensures Trim(part, drop) == name <==> Padded(part, name, drop)
  {
    hide Trim;
    if Padded(part, name, drop) {
      var pre, post :| part == pre + name + post && AllDropped(pre, drop) && AllDropped(post, drop);
      TrimUnique(pre, name, post, drop);
    }
    if Trim(part, drop) == name {
      var pre, post := TrimCut(part, drop);
      assert part == pre + name + post && AllDropped(pre, drop) && AllDropped(post, drop);
    }
  }

  /** The trimmed parts that are not empty are exactly the names the parts spell. */
  lemma {:induction false} TrimmedPartsSpell(parts: seq<string>, names: seq<string>, drop: char -> bool)
    ensures TrimmedParts(parts, drop) == names <==> Spell(parts, names, drop)
    decreases |parts|
  {
    hide Trim, Padded, AllDropped;
    if parts != [] {
      var t := Trim(parts[0], drop);
      TrimBlank(parts[0], drop);
      if t == "" {
        TrimmedPartsSpell(parts[1..], names, drop);
        assert [] + TrimmedParts(parts[1..], drop) == TrimmedParts(parts[1..], drop);
        if names != [] && Padded(parts[0], names[0], drop) {
          assert names[0] != "" by { PaddedName(parts[0], names[0], drop); }
          TrimPadded(parts[0], names[0], drop);
        }
      } else {
        TrimPadded(parts[0], t, drop);
        if names != [] {
          TrimmedPartsSpell(parts[1..], names[1..], drop);
          assert names == [names[0]] + names[1..];
          if Padded(parts[0], names[0], drop) {
            assert names[0] != "" by { PaddedName(parts[0], names[0], drop); }
            TrimPadded(parts[0], names[0], drop);
          }
        }
      }
    }
  }

  lemma PaddedName(part: string, name: string, drop: char -> bool)
    requires Padded(part, name, drop)
    ensures name != ""
  {
  }

  /** One more part without the separator. */
  lemma {:induction false} SplitLast(s: string, last: string, sep: char)
    requires sep !in last
    ensures Split(s + [sep] + last, sep) == Split(s, sep) + [last]
  {
    var all := s + [sep] + last;
    if s == "" {
      assert all[1..] == last;
      SplitWhole(last, sep);
    } else {
      SplitLast(s[1..], last, sep);
      assert all[1..] == s[1..] + [sep] + last;
      var rest := Split(s[1..], sep);
      assert (rest + [last])[0] == rest[0] && (rest + [last])[1..] == rest[1..] + [last];
    }
  }

  /** What follows the last separator belongs to the last part. */
  lemma {:induction false} SplitPadded(s: string, post: string, sep: char)
    requires sep !in post
    ensures var parts := Split(s, sep);
            Split(s + post, sep) == parts[..|parts|-1] + [parts[|parts|-1] + post]
  {
    hide Split;
    var parts := Split(s, sep);
    var n := |parts| - 1;
    JoinOfSplit(s, sep);
    var padded := parts[..n] + [parts[n] + post];
    JoinPadded(parts, post, sep);
    assert AllFree(padded, sep);
    SplitOfJoin(padded, sep);
  }

  lemma {:induction false} JoinPadded(parts: seq<string>, post: string, sep: char)
    requires parts != []
    ensures Join(parts[..|parts|-1] + [parts[|parts|-1] + post], sep) == Join(parts, sep) + post
  {
    var n := |parts| - 1;
    var padded := parts[..n] + [parts[n] + post];
    if n > 0 {
      JoinPadded(parts[1..], post, sep);
      assert padded[1..] == parts[1..][..n - 1] + [parts[1..][n - 1] + post];
      assert padded[0] == parts[0];
      assert parts[0] + [sep] + (Join(parts[1..], sep) + post) == (parts[0] + [sep] + Join(parts[1..], sep)) + post;
    }
  }

  lemma {:induction false} TrimmedPartsLast(parts: seq<string>, post: string, drop: char -> bool)
    requires parts != [] && AllDropped(post, drop)
    ensures var n := |parts| - 1;
            TrimmedParts(parts[..n] + [parts[n] + post], drop) == TrimmedParts(parts, drop)
  {
    hide Trim;
    var n := |parts| - 1;
    var padded := parts[..n] + [parts[n] + post];
    if n == 0 {
      assert parts[1..] == [] && padded[1..] == [];
      TrimPost(parts[0], post, drop);
    } else {
      TrimmedPartsLast(parts[1..], post, drop);
      assert padded[1..] == parts[1..][..n - 1] + [parts[1..][n - 1] + post];
    }
  }

  lemma TrimPost(s: string, post: string, drop: char -> bool)
    requires AllDropped(post, drop)
    ensures Trim(s + post, drop) == Trim(s, drop)
  {
    hide Trim;
    var a, b := TrimCut(s, drop);
    assert s + post == a + Trim(s, drop) + (b + post);
    TrimUnique(a, Trim(s, drop), b + post, drop);
  }
}
