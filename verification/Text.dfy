/** strings.ToLower and strings.TrimSpace on ASCII text, as cache keys and handler paths are normalised. */
module Text {
  function LowerChar(c: char): char {
    if 'A' <= c <= 'Z' then (c as int + 32) as char else c
  }

  predicate IsSpace(c: char) {
    c == ' ' || 9 as char <= c <= 13 as char
  }

  function ToLower(s: string): (t: string)
    ensures |t| == |s|
    ensures forall i :: 0 <= i < |s| ==> t[i] == LowerChar(s[i])
  {
    if s == [] then [] else [LowerChar(s[0])] + ToLower(s[1..])
  }

  function TrimLeft(s: string): string {
    if s != [] && IsSpace(s[0]) then TrimLeft(s[1..]) else s
  }

  function TrimRight(s: string): string {
    if s != [] && IsSpace(s[|s| - 1]) then TrimRight(s[..|s| - 1]) else s
  }

  function TrimSpace(s: string): string {
    TrimRight(TrimLeft(s))
  }

  /** utils/cache.go getKey. */
  function GetKey(key: string): string {
    TrimSpace(ToLower(key))
  }

  /** The path under which rpc/invoke.go stores and looks up a handler. */
  function GetPath(path: string): string {
    ToLower(TrimSpace(path))
  }

  lemma {:induction false} LowerTrimLeft(s: string)
    ensures ToLower(TrimLeft(s)) == TrimLeft(ToLower(s))
  {
    if s != [] && IsSpace(s[0]) {
      LowerTrimLeft(s[1..]);
      assert ToLower(s)[1..] == ToLower(s[1..]);
    }
  }

  lemma {:induction false} LowerTrimRight(s: string)
    ensures ToLower(TrimRight(s)) == TrimRight(ToLower(s))
  {
    if s != [] && IsSpace(s[|s| - 1]) {
      LowerTrimRight(s[..|s| - 1]);
      assert ToLower(s)[..|s| - 1] == ToLower(s[..|s| - 1]);
    }
  }

  /** The two normalisations are one. */
  lemma KeyIsPath(s: string)
    ensures GetKey(s) == GetPath(s)
  {
    LowerTrimSpace(s);
  }

  lemma {:induction false} TrimLeftIsSuffix(s: string)
    ensures |TrimLeft(s)| <= |s| && TrimLeft(s) == s[|s| - |TrimLeft(s)|..]
    ensures TrimLeft(s) == [] || !IsSpace(TrimLeft(s)[0])
  {
    if s != [] && IsSpace(s[0]) {
      TrimLeftIsSuffix(s[1..]);
    }
  }

  lemma {:induction false} TrimRightIsPrefix(s: string)
    ensures TrimRight(s) <= s
    ensures TrimRight(s) == [] || !IsSpace(TrimRight(s)[|TrimRight(s)| - 1])
  {
    if s != [] && IsSpace(s[|s| - 1]) {
      TrimRightIsPrefix(s[..|s| - 1]);
    }
  }

  lemma {:induction false} ToLowerIdempotent(s: string)
    ensures ToLower(ToLower(s)) == ToLower(s)
  {
    if s != [] {
      ToLowerIdempotent(s[1..]);
      assert ToLower(s)[1..] == ToLower(s[1..]);
    }
  }

  /** Trimming twice changes nothing. */
  lemma TrimSpaceIdempotent(s: string)
    ensures TrimSpace(TrimSpace(s)) == TrimSpace(s)
  {
    var l := TrimLeft(s);
    TrimLeftIsSuffix(s);
    TrimRightIsPrefix(l);
    var t := TrimRight(l);
    assert t == [] || t[0] == l[0];
    assert TrimLeft(t) == t;
    assert TrimRight(t) == t;
  }

  lemma LowerTrimSpace(s: string)
    ensures ToLower(TrimSpace(s)) == TrimSpace(ToLower(s))
  {
    LowerTrimLeft(s);
    LowerTrimRight(TrimLeft(s));
  }

  /** Normalising twice changes nothing. */
  lemma GetKeyIdempotent(key: string)
    ensures GetKey(GetKey(key)) == GetKey(key)
  {
    var low := ToLower(key);
    LowerTrimSpace(low);
    ToLowerIdempotent(key);
    TrimSpaceIdempotent(low);
  }

  // ---------- what normalisation keeps ----------

  /** Tab, line feed, vertical tab, form feed, carriage return and blank. */
  predicate White(c: char) {
    c as int in {9, 10, 11, 12, 13, 32}
  }

  /** From..to is what stands between the first and the last character of s that is not white. */
  ghost predicate Core(s: string, from: nat, to: nat) {
    && from <= to <= |s|
    && (forall i :: 0 <= i < from ==> White(s[i]))
    && (forall i :: to <= i < |s| ==> White(s[i]))
    && (from < to ==> !White(s[from]) && !White(s[to - 1]))
  }

  lemma {:induction false} TrimLeftExactly(s: string, from: nat)
    requires from <= |s| && (forall i :: 0 <= i < from ==> White(s[i])) && (from < |s| ==> !White(s[from]))
    ensures TrimLeft(s) == s[from..]
  {
    if from > 0 {
      TrimLeftExactly(s[1..], from - 1);
    }
  }

  lemma {:induction false} TrimRightExactly(s: string, to: nat)
    requires to <= |s| && (forall i :: to <= i < |s| ==> White(s[i])) && (to > 0 ==> !White(s[to - 1]))
    ensures TrimRight(s) == s[..to]
    decreases |s|
  {
    if to < |s| {
      TrimRightExactly(s[..|s| - 1], to);
      assert s[..|s| - 1][..to] == s[..to];
    }
  }

  lemma {:induction false} AllWhite(s: string)
    requires forall i :: 0 <= i < |s| ==> White(s[i])
    ensures TrimSpace(s) == []
  {
    TrimLeftExactly(s, |s|);
  }

  /** TrimSpace takes off the white characters around the text, all of them and nothing else. */
  lemma TrimSpaceExactly(s: string, from: nat, to: nat)
    requires Core(s, from, to)
    ensures TrimSpace(s) == s[from..to]
  {
    if from == to {
      AllWhite(s);
    } else {
      TrimLeftExactly(s, from);
      TrimRightExactly(s[from..], to - from);
    }
  }

  /** Every text has such a core. */
  lemma {:induction false} CoreOf(s: string) returns (from: nat, to: nat)
    ensures Core(s, from, to)
  {
    if s == [] {
      from, to := 0, 0;
    } else if White(s[0]) {
      from, to := CoreOf(s[1..]);
      from, to := from + 1, to + 1;
      assert forall i :: 1 <= i < |s| ==> s[i] == s[1..][i - 1];
    } else if White(s[|s| - 1]) {
      var short := s[..|s| - 1];
      from, to := CoreOf(short);
      assert s[0] == short[0];
    } else {
      from, to := 0, |s|;
    }
  }

  /** The same character, or one letter in its two cases. */
  predicate SameUpToCase(c: char, d: char) {
    || c == d
    || ('A' <= c <= 'Z' && d as int == c as int + 32)
    || ('A' <= d <= 'Z' && c as int == d as int + 32)
  }

  lemma SameLowerChar(c: char, d: char)
    ensures LowerChar(c) == LowerChar(d) <==> SameUpToCase(c, d)
  {
  }

  /** The two texts are equally long and agree at each position up to the case of ASCII letters. */
  ghost predicate EqualUpToCase(s: string, t: string) {
    |s| == |t| && forall i :: 0 <= i < |s| ==> SameUpToCase(s[i], t[i])
  }

  /** They are exactly the texts with one lower-case form. */
  lemma SameLowerExactly(s: string, t: string)
    ensures ToLower(s) == ToLower(t) <==> EqualUpToCase(s, t)
  {
    if ToLower(s) == ToLower(t) {
      LowerAgrees(s, t);
    } else if EqualUpToCase(s, t) {
      AgreeingLower(s, t);
    }
  }

  lemma AgreeingLower(s: string, t: string)
    requires EqualUpToCase(s, t)
    ensures ToLower(s) == ToLower(t)
  {
    var a, b := ToLower(s), ToLower(t);
    forall i | 0 <= i < |s| ensures a[i] == b[i] {
      SameLowerChar(s[i], t[i]);
    }
  }

  lemma LowerAgrees(s: string, t: string)
    requires ToLower(s) == ToLower(t)
    ensures EqualUpToCase(s, t)
  {
    var a, b := ToLower(s), ToLower(t);
    forall i | 0 <= i < |s| ensures SameUpToCase(s[i], t[i]) {
      assert a[i] == b[i];
      SameLowerChar(s[i], t[i]);
    }
  }

  /** The key is the lower-case core, whether spaces or capitals go first. */
  lemma KeyOfCore(s: string, from: nat, to: nat)
    requires Core(s, from, to)
    ensures GetKey(s) == GetPath(s) == ToLower(s[from..to])
  {
    KeyIsPath(s);
    TrimSpaceExactly(s, from, to);
  }

  /**
   Two names stand for one cache key, or one handler path, if and only if they
   agree up to case between the white characters around them.
   */
  lemma SameKeyExactly(a: string, fromA: nat, toA: nat, b: string, fromB: nat, toB: nat)
    requires Core(a, fromA, toA) && Core(b, fromB, toB)
    ensures (GetKey(a) == GetKey(b)) == (GetPath(a) == GetPath(b))
    ensures GetKey(a) == GetKey(b) <==> EqualUpToCase(a[fromA..toA], b[fromB..toB])
  {
    KeyOfCore(a, fromA, toA);
    KeyOfCore(b, fromB, toB);
    SameLowerExactly(a[fromA..toA], b[fromB..toB]);
  }

  /** The key itself: the core of the text, its ASCII capitals made small, everything else as it is. */
  lemma KeyCharacters(s: string, from: nat, to: nat)
    requires Core(s, from, to)
    ensures |GetKey(s)| == to - from && GetPath(s) == GetKey(s)
    ensures forall i :: 0 <= i < to - from && 'A' <= s[from + i] <= 'Z' ==>
      GetKey(s)[i] as int - 'a' as int == s[from + i] as int - 'A' as int
    ensures forall i :: 0 <= i < to - from && !('A' <= s[from + i] <= 'Z') ==> GetKey(s)[i] == s[from + i]
  {
    KeyOfCore(s, from, to);
    assert forall i :: 0 <= i < to - from ==> s[from..to][i] == s[from + i];
  }
}
