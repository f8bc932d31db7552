/** Splitting a string on a separator and joining tokens back, with the semantics of
    Python's `str.split(sep)` (non-empty `sep`, no limit) and `sep.join(tokens)`:
    the string is cut at every occurrence of `sep`, scanning left to right, so that
    adjacent separators yield empty tokens and the result is never empty. */
module Text {

  /** `sep` occurs in `s` at index `i`. */
  predicate OccursAt(s: string, sep: string, i: nat)
  {
    i + |sep| <= |s| && s[i..i + |sep|] == sep
  }

  predicate Contains(s: string, sep: string)
  {
    exists i: nat | i <= |s| :: OccursAt(s, sep, i)
  }

  /** No proper prefix of `sep` is also a suffix of it, so two occurrences of `sep`
      never overlap (true of `": "` and of every one-character separator). */
  predicate Borderless(sep: string)
  {
    forall k :: 0 < k < |sep| ==> sep[..k] != sep[|sep| - k..]
  }

  /** `s.split(sep)`. The first token is a prefix of `s`. */
  function Split(s: string, sep: string): (r: seq<string>)
    requires sep != []
    ensures r != [] && r[0] <= s
    decreases |s|
  {
    if |s| < |sep| then [s]
    else if s[..|sep|] == sep then [""] + Split(s[|sep|..], sep)
    else
      var rest := Split(s[1..], sep);
      [[s[0]] + rest[0]] + rest[1..]
  }

  /** `sep.join(ts)`: the string starts with the first token. */
  function Join(ts: seq<string>, sep: string): (s: string)
    ensures ts != [] ==> ts[0] <= s
    decreases |ts|
  {
    if ts == [] then ""
    else if |ts| == 1 then ts[0]
    else ts[0] + sep + Join(ts[1..], sep)
  }

  /** Every token of each string in `ts`, in order: what splitting each one separately
      and concatenating the lists gives. */
  function SplitEach(ts: seq<string>, sep: string): seq<string>
    requires sep != []
    decreases |ts|
  {
    if ts == [] then [] else Split(ts[0], sep) + SplitEach(ts[1..], sep)
  }

  lemma SplitEachCons(t: string, ts: seq<string>, sep: string)
    requires sep != []
    ensures SplitEach([t] + ts, sep) == Split(t, sep) + SplitEach(ts, sep)
  {
    assert ([t] + ts)[1..] == ts;
  }

  lemma ColonSpaceBorderless()
    ensures Borderless(": ")
  {
    assert ": "[..1] == [':'] && ": "[1..] == [' '];
  }

  lemma SpaceBorderless()
    ensures Borderless(" ")
  {
  }

  /** A string that does not start with `sep` contributes its first character to the
      first token. */
  lemma SplitCons(s: string, sep: string)
    requires sep != [] && s != [] && !OccursAt(s, sep, 0)
    ensures var rest := Split(s[1..], sep); Split(s, sep) == [[s[0]] + rest[0]] + rest[1..]
  {
    if |s| < |sep| {
      assert Split(s[1..], sep) == [s[1..]];
      assert s == [s[0]] + s[1..];
    } else {
      assert s[..|sep|] == s[0..|sep|];
    }
  }

  lemma {:induction false} JoinHead(x: string, ts: seq<string>, sep: string)
    requires ts != []
    ensures Join([x + ts[0]] + ts[1..], sep) == x + Join(ts, sep)
  {
    var us := [x + ts[0]] + ts[1..];
    assert us[1..] == ts[1..];
  }

  /** Joining the tokens of `s` with the separator gives `s` back. */
  lemma {:induction false} JoinSplit(s: string, sep: string)
    requires sep != []
    ensures Join(Split(s, sep), sep) == s
    decreases |s|
  {
    if |s| < |sep| {
    } else if s[..|sep|] == sep {
      var rest := Split(s[|sep|..], sep);
      JoinSplit(s[|sep|..], sep);
      assert Split(s, sep) == [""] + rest;
      assert ([""] + rest)[1..] == rest;
      assert s == s[..|sep|] + s[|sep|..];
    } else {
      JoinSplit(s[1..], sep);
      JoinHead([s[0]], Split(s[1..], sep), sep);
      assert s == [s[0]] + s[1..];
    }
  }

  /** Putting a character in front shifts every occurrence by one. */
  lemma NoOccurrenceAfterCons(c: char, t: string, sep: string, i: nat)
    requires !OccursAt(t, sep, i)
    ensures !OccursAt([c] + t, sep, i + 1)
  {
    if i + 1 + |sep| <= |[c] + t| {
      assert ([c] + t)[i + 1..i + 1 + |sep|] == t[i..i + |sep|];
    }
  }

  /** No token that split produces contains the separator. */
  lemma {:induction false} SplitTokensFree(s: string, sep: string)
    requires sep != []
    ensures forall t :: t in Split(s, sep) ==> !Contains(t, sep)
    decreases |s|
  {
    if |s| < |sep| {
      assert Split(s, sep) == [s];
    } else if s[..|sep|] == sep {
      SplitTokensFree(s[|sep|..], sep);
      assert Split(s, sep) == [""] + Split(s[|sep|..], sep);
    } else {
      var rest := Split(s[1..], sep);
      SplitTokensFree(s[1..], sep);
      var head := [s[0]] + rest[0];
      assert rest[0] in rest;
      forall i: nat
        ensures !OccursAt(head, sep, i)
      {
        if i > 0 {
          NoOccurrenceAfterCons(s[0], rest[0], sep, i - 1);
        }
      }
      assert Split(s, sep) == [head] + rest[1..];
      forall t | t in rest[1..] ensures t in rest { }
    }
  }

  /** A string without the separator is a single token. */
  lemma {:induction false} SplitFree(s: string, sep: string)
    requires sep != [] && !Contains(s, sep)
    ensures Split(s, sep) == [s]
    decreases |s|
  {
    if s != [] {
      assert !OccursAt(s, sep, 0);
      assert !Contains(s[1..], sep) by {
        forall i: nat | OccursAt(s[1..], sep, i)
          ensures OccursAt(s, sep, i + 1)
        {
          assert s[i + 1..i + 1 + |sep|] == s[1..][i..i + |sep|];
        }
      }
      SplitFree(s[1..], sep);
      SplitCons(s, sep);
      assert s == [s[0]] + s[1..];
    }
  }

  /** A string that starts with `sep` yields an empty first token. */
  lemma SplitAtSeparator(s: string, sep: string)
    requires sep != [] && OccursAt(s, sep, 0)
    ensures Split(s, sep) == [""] + Split(s[|sep|..], sep)
  {
    assert s[..|sep|] == s[0..|sep|];
  }

  /** A non-empty `a` that does not start with `sep` cannot start with it once `sep`
      is appended, as long as `sep` has no border. */
  lemma NoSeparatorAtJoint(a: string, sep: string, b: string)
    requires sep != [] && Borderless(sep) && a != [] && !OccursAt(a, sep, 0)
    ensures !OccursAt(a + sep + b, sep, 0)
  {
    var s := a + sep + b;
    if |a| < |sep| {
      var k := |sep| - |a|;
      assert sep[..k] != sep[|sep| - k..];
      assert s[..|sep|][|a|..] == sep[..k];
      assert s[0..|sep|] == s[..|sep|];
    } else {
      assert s[0..|sep|] == a[0..|sep|];
    }
  }

  /** Adding a character to the first token commutes with appending more tokens. */
  lemma ConsFirstToken(c: char, ra: seq<string>, rb: seq<string>)
    requires ra != []
    ensures [[c] + (ra + rb)[0]] + (ra + rb)[1..] == ([[c] + ra[0]] + ra[1..]) + rb
  {
    assert (ra + rb)[0] == ra[0] && (ra + rb)[1..] == ra[1..] + rb;
  }

  /** The step of SplitAppend for an `a` that does not start with `sep`: its first
      character joins the first token of the rest. */
  lemma SplitAppendCons(a: string, sep: string, b: string)
    requires sep != [] && Borderless(sep) && a != [] && !OccursAt(a, sep, 0)
    requires Split(a[1..] + sep + b, sep) == Split(a[1..], sep) + Split(b, sep)
    ensures Split(a + sep + b, sep) == Split(a, sep) + Split(b, sep)
  {
    var s := a + sep + b;
    NoSeparatorAtJoint(a, sep, b);
    assert s[0] == a[0] && s[1..] == a[1..] + sep + b;
    SplitCons(s, sep);
    SplitCons(a, sep);
    ConsFirstToken(a[0], Split(a[1..], sep), Split(b, sep));
  }

  /** With a separator whose occurrences cannot overlap, splitting `a + sep + b` cuts
      at the separator placed between them, whatever `a` and `b` hold. */
  lemma {:induction false} SplitAppend(a: string, sep: string, b: string)
    requires sep != [] && Borderless(sep)
    ensures Split(a + sep + b, sep) == Split(a, sep) + Split(b, sep)
    decreases |a|
  {
    var s := a + sep + b;
    if a == [] {
      assert s[..|sep|] == sep && s[|sep|..] == b;
      SplitAtSeparator(s, sep);
    } else if OccursAt(a, sep, 0) {
      assert s[0..|sep|] == a[0..|sep|];
      assert s[|sep|..] == a[|sep|..] + sep + b;
      SplitAtSeparator(s, sep);
      SplitAtSeparator(a, sep);
      SplitAppend(a[|sep|..], sep, b);
    } else {
      SplitAppend(a[1..], sep, b);
      SplitAppendCons(a, sep, b);
    }
  }

  /** Split undoes Join on tokens that do not contain the separator: together with
      JoinSplit, the two are inverse to each other. */
  lemma {:induction false} SplitJoin(ts: seq<string>, sep: string)
    requires sep != [] && Borderless(sep) && ts != []
    requires forall t :: t in ts ==> !Contains(t, sep)
    ensures Split(Join(ts, sep), sep) == ts
    decreases |ts|
  {
    SplitFree(ts[0], sep);
    if |ts| > 1 {
      SplitAppend(ts[0], sep, Join(ts[1..], sep));
      forall t | t in ts[1..] ensures t in ts { }
      SplitJoin(ts[1..], sep);
      assert ts == [ts[0]] + ts[1..];
    }
  }

  /** Tokens joined by the separator, followed by the separator and anything at all,
      split into those tokens followed by the split of what follows. */
  lemma SplitJoinThen(ts: seq<string>, sep: string, rest: string)
    requires sep != [] && Borderless(sep) && ts != []
    requires forall t :: t in ts ==> !Contains(t, sep)
    ensures Split(Join(ts, sep) + sep + rest, sep) == ts + Split(rest, sep)
  {
    SplitAppend(Join(ts, sep), sep, rest);
    SplitJoin(ts, sep);
  }

  /** Joining tokens with the separator and splitting again on it gives each token's
      own split, concatenated in order. */
  lemma {:induction false} SplitJoinEach(ts: seq<string>, sep: string)
    requires sep != [] && Borderless(sep) && ts != []
    ensures Split(Join(ts, sep), sep) == SplitEach(ts, sep)
    decreases |ts|
  {
    if |ts| == 1 {
      assert SplitEach(ts[1..], sep) == [];
    } else {
      SplitAppend(ts[0], sep, Join(ts[1..], sep));
      SplitJoinEach(ts[1..], sep);
    }
  }
}
