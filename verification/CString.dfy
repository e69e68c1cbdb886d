/** The string routines of include/string.h on NUL-terminated memory.  A pointer into a
    buffer is an index; t, the text it points to, is passed along as a ghost. */
module CString {
  const NUL := '\0'

  ghost predicate Plain(t: seq<char>) {
    forall k :: 0 <= k < |t| ==> t[k] != NUL
  }

  /** Memory m holds the string t, with its terminator, from index p on. */
  ghost predicate Holds(m: seq<char>, p: nat, t: seq<char>) {
    && Plain(t) && p + |t| < |m|
    && (forall k :: 0 <= k < |t| ==> m[p + k] == t[k])
    && m[p + |t|] == NUL
  }

  /** m with the string t stored from index p on. */
  function Stored(m: seq<char>, p: nat, t: seq<char>): seq<char>
    requires p + |t| < |m|
  {
    m[..p] + t + [NUL] + m[p + |t| + 1..]
  }

  lemma StoredHolds(m: seq<char>, p: nat, t: seq<char>)
    requires p + |t| < |m| && Plain(t)
    ensures |Stored(m, p, t)| == |m| && Holds(Stored(m, p, t), p, t)
    ensures forall k :: 0 <= k < p || p + |t| < k < |m| ==> Stored(m, p, t)[k] == m[k]
  {
  }

  lemma OneChar(m: seq<char>, c: char)
    requires m == [c, NUL] && c != NUL
    ensures Holds(m, 0, [c])
  {
  }

  /** memcpy between different buffers. */
  method MemCpy<T>(dst: array<T>, doff: nat, src: array<T>, soff: nat, n: nat)
    requires dst != src && doff + n <= dst.Length && soff + n <= src.Length
    modifies dst
    ensures dst[..] == old(dst[..doff]) + src[soff..soff+n] + old(dst[doff+n..])
  {
    var i := 0;
    while i < n
      invariant 0 <= i <= n
      invariant dst[..] == old(dst[..doff]) + src[soff..soff+i] + old(dst[doff+i..])
    {
      dst[doff + i] := src[soff + i];
      i := i + 1;
    }
  }

  method MemSet(dst: array<char>, val: char, n: nat)
    requires n <= dst.Length
    modifies dst
    ensures forall k :: 0 <= k < dst.Length ==> dst[k] == if k < n then val else old(dst[k])
  {
    var count := n;
    while count != 0
      invariant 0 <= count <= n
      invariant forall k :: 0 <= k < dst.Length ==> dst[k] == if count <= k < n then val else old(dst[k])
    {
      count := count - 1;
      dst[count] := val;
    }
  }

  method StrLen(a: array<char>, p: nat, ghost t: seq<char>) returns (len: nat)
    requires Holds(a[..], p, t)
    ensures len == |t|
  {
    var n := 0;
    while a[p + n] != NUL
      invariant 0 <= n <= |t|
      decreases |t| - n
    {
      CharAt(a[..], p, t, n);
      n := n + 1;
    }
    CharAt(a[..], p, t, n);
    return n;
  }

  /** The sign of the first difference, as strings compare. */
  function Compare(t: seq<char>, u: seq<char>): int {
    if t == [] && u == [] then 0
    else if t == [] then -(u[0] as int)
    else if u == [] then t[0] as int
    else if t[0] == u[0] then Compare(t[1..], u[1..])
    else t[0] as int - u[0] as int
  }

  lemma {:induction false} CompareZero(t: seq<char>, u: seq<char>)
    requires Plain(t) && Plain(u)
    ensures Compare(t, u) == 0 <==> t == u
    ensures Compare(u, t) == -Compare(t, u)
  {
    if t != [] && u != [] && t[0] == u[0] {
      CompareZero(t[1..], u[1..]);
      assert t == [t[0]] + t[1..] && u == [u[0]] + u[1..];
    }
  }

  /** The comparison is the difference at the first place where the texts differ, with the
      terminator as 0. */
  lemma {:induction false} CompareAt(p: seq<char>, t: seq<char>, u: seq<char>)
    requires t != [] || u != [] ==> t == [] || u == [] || t[0] != u[0]
    ensures Compare(p + t, p + u) ==
            (if t == [] then 0 else t[0] as int) - (if u == [] then 0 else u[0] as int)
  {
    if p == [] {
      assert p + t == t && p + u == u;
    } else {
      CompareAt(p[1..], t, u);
      assert (p + t)[1..] == p[1..] + t && (p + u)[1..] == p[1..] + u;
    }
  }

  method StrCmp(a: array<char>, p: nat, b: array<char>, q: nat, ghost t: seq<char>, ghost u: seq<char>) returns (r: int)
    requires Holds(a[..], p, t) && Holds(b[..], q, u)
    ensures r == Compare(t, u) && (r == 0 <==> t == u)
  {
    var n := 0;
    CompareZero(t, u);
    while a[p + n] != NUL && a[p + n] == b[q + n]
      invariant 0 <= n <= |t| && n <= |u|
      invariant t[..n] == u[..n] && Compare(t[n..], u[n..]) == Compare(t, u)
      decreases |t| - n
    {
      CharAt(a[..], p, t, n);
      CharAt(b[..], q, u, n);
      n := n + 1;
    }
    CharAt(a[..], p, t, n);
    CharAt(b[..], q, u, n);
    r := a[p + n] as int - b[q + n] as int;
  }

  lemma CharAt(m: seq<char>, p: nat, t: seq<char>, n: nat)
    requires Holds(m, p, t) && n <= |t|
    ensures p + |t| < |m|
    ensures m[p + n] == if n < |t| then t[n] else NUL
    ensures m[p + n] == NUL <==> n == |t|
  {
  }

  /** The two ranges may overlap when the copy goes down. */
  method StrCpy(d: array<char>, p: nat, s: array<char>, q: nat, ghost t: seq<char>)
    requires Holds(s[..], q, t) && p + |t| < d.Length
    requires d != s || p <= q
    modifies d
    ensures d[..] == Stored(old(d[..]), p, t)
  {
    var n := 0;
    CharAt(s[..], q, t, 0);
    var c := s[q];
    d[p] := c;
    while c != NUL
      invariant 0 <= n <= |t| && (c == NUL <==> n == |t|) && c == d[p + n]
      invariant c == if n < |t| then t[n] else NUL
      invariant forall k :: 0 <= k < n ==> d[p + k] == t[k]
      invariant forall k :: 0 <= k < d.Length && !(p <= k <= p + n) ==> d[k] == old(d[k])
      decreases |t| - n
    {
      n := n + 1;
      CharAt(old(s[..]), q, t, n);
      c := s[q + n];
      d[p + n] := c;
    }
    assert d[..] == Stored(old(d[..]), p, t);
  }

  method StrCat(d: array<char>, s: array<char>, q: nat, ghost t: seq<char>, ghost u: seq<char>)
    requires d != s && Holds(d[..], 0, t) && Holds(s[..], q, u) && |t| + |u| < d.Length
    modifies d
    ensures d[..] == Stored(old(d[..]), 0, t + u)
  {
    var ptr := StrLen(d, 0, t);
    var n := 0;
    while s[q + n] != NUL
      invariant 0 <= n <= |u| && ptr == |t| + n
      invariant forall k :: 0 <= k < n ==> d[|t| + k] == u[k]
      invariant forall k :: 0 <= k < |t| || ptr <= k < d.Length ==> d[k] == old(d[k])
      decreases |u| - n
    {
      CharAt(s[..], q, u, n);
      d[ptr] := s[q + n];
      ptr, n := ptr + 1, n + 1;
    }
    CharAt(s[..], q, u, n);
    d[ptr] := NUL;
    assert d[..] == Stored(old(d[..]), 0, t + u);
  }

  function Reversed(t: seq<char>): (r: seq<char>)
    ensures |r| == |t| && forall k :: 0 <= k < |t| ==> r[k] == t[|t| - 1 - k]
  {
    if t == [] then [] else Reversed(t[1..]) + [t[0]]
  }

  lemma ReversedPlain(t: seq<char>)
    ensures Plain(t) ==> Plain(Reversed(t))
    ensures Reversed(Reversed(t)) == t
  {
    hide Reversed;
  }

  method Reverse(a: array<char>, p: nat, ghost t: seq<char>)
    requires Holds(a[..], p, t)
    modifies a
    ensures a[..] == Stored(old(a[..]), p, Reversed(t))
  {
    hide Reversed, Holds, Stored;
    ghost var o, r := a[..], Reversed(t);
    TextAt(o, p, t);
    var len := StrLen(a, p, t);
    var i := 0;
    var j: int := len as int - 1;
    while i < j
      invariant 0 <= i <= |t| && j == |t| - 1 - i && i <= j + 2
      invariant forall k :: p <= k < p + |t| ==> a[k] == if i <= k - p <= j then t[k - p] else r[k - p]
      invariant forall k :: 0 <= k < p || p + |t| <= k < a.Length ==> a[k] == o[k]
      decreases j - i
    {
      a[p + i], a[p + j] := a[p + j], a[p + i];
      i, j := i + 1, j - 1;
    }
    StoredIs(o, a[..], p, r);
  }

  lemma TextAt(m: seq<char>, p: nat, t: seq<char>)
    requires Holds(m, p, t)
    ensures p + |t| < |m| && m[p + |t|] == NUL
    ensures forall k :: p <= k < p + |t| ==> m[k] == t[k - p]
  {
    forall k | p <= k < p + |t| ensures m[k] == t[k - p] {
      var j := k - p;
      assert m[p + j] == t[j];
    }
  }

  lemma StoredIs(o: seq<char>, m: seq<char>, p: nat, t: seq<char>)
    requires p + |t| < |o| == |m| && m[p + |t|] == NUL
    requires forall k :: p <= k < p + |t| ==> m[k] == t[k - p]
    requires forall k :: 0 <= k < p || p + |t| < k < |o| ==> m[k] == o[k]
    ensures m == Stored(o, p, t)
  {
  }

  /** The index of the first c in t, or the length of t. */
  function Find(t: seq<char>, c: char): (r: nat)
    ensures r <= |t| && (r < |t| ==> t[r] == c)
    ensures forall k :: 0 <= k < r ==> t[k] != c
  {
    if t == [] || t[0] == c then 0 else 1 + Find(t[1..], c)
  }

  /** strchr(s, c) for c != NUL, as found or not found. */
  method StrChr(a: array<char>, p: nat, c: char, ghost t: seq<char>) returns (found: bool, at: nat)
    requires Holds(a[..], p, t) && c != NUL
    ensures found <==> c in t
    ensures found ==> at == p + Find(t, c)
  {
    at := p;
    while a[at] != c
      invariant p <= at <= p + |t|
      invariant forall k :: 0 <= k < at - p ==> t[k] != c
      decreases p + |t| - at
    {
      CharAt(a[..], p, t, at - p);
      if a[at] == NUL {
        return false, 0;
      }
      at := at + 1;
    }
    CharAt(a[..], p, t, at - p);
    return true, at;
  }

  /** The index of the first character of t that is one of ds, or the length of t. */
  function FindAny(t: seq<char>, ds: seq<char>): (r: nat)
    ensures r <= |t| && (r < |t| ==> t[r] in ds)
    ensures forall k :: 0 <= k < r ==> t[k] !in ds
  {
    if t == [] || t[0] in ds then 0 else 1 + FindAny(t[1..], ds)
  }

  lemma FindOne(t: seq<char>, c: char)
    ensures FindAny(t, [c]) == Find(t, c)
  {
  }

  /** strsep(&str, delims): the text up to the first delimiter is cut off, and next is where
      the rest starts; without a delimiter next is NULL. */
  method StrSep(a: array<char>, p: nat, delims: array<char>, ghost ds: seq<char>, ghost t: seq<char>)
    returns (more: bool, next: nat)
    requires a != delims && Holds(a[..], p, t) && Holds(delims[..], 0, ds)
    modifies a
    ensures more <==> FindAny(t, ds) < |t|
    ensures if more then next == p + FindAny(t, ds) + 1 && a[..] == old(a[..])[p + FindAny(t, ds) := NUL]
            else a[..] == old(a[..])
  {
    next := p;
    while a[next] != NUL
      invariant p <= next <= p + |t| && a[..] == old(a[..])
      invariant forall k :: 0 <= k < next - p ==> t[k] !in ds
      decreases p + |t| - next
    {
      CharAt(a[..], p, t, next - p);
      var hit, at := StrChr(delims, 0, a[next], ds);
      if hit {
        a[next] := NUL;
        next := next + 1;
        return true, next;
      }
      next := next + 1;
    }
    CharAt(a[..], p, t, next - p);
    return false, 0;
  }

  /** A capital becomes the small letter at the same place of the alphabet, anything else
      stays. */
  function Lower(c: char): (r: char)
    ensures if 'A' <= c <= 'Z' then 'a' <= r <= 'z' && r as int - 'a' as int == c as int - 'A' as int else r == c
    ensures !('A' <= r <= 'Z') && (r == NUL <==> c == NUL)
  {
    if 'A' <= c <= 'Z' then c + 32 as char else c
  }

  function Lowered(t: seq<char>): (r: seq<char>)
    ensures |r| == |t| && forall k :: 0 <= k < |t| ==> r[k] == Lower(t[k])
  {
    seq(|t|, i requires 0 <= i < |t| => Lower(t[i]))
  }

  method ToLower(a: array<char>, p: nat, ghost t: seq<char>)
    requires Holds(a[..], p, t)
    modifies a
    ensures a[..] == Stored(old(a[..]), p, Lowered(t))
  {
    var len := StrLen(a, p, t);
    for i := 0 to len
      invariant forall k :: 0 <= k < i ==> a[p + k] == Lower(t[k])
      invariant forall k :: 0 <= k < a.Length && !(p <= k < p + i) ==> a[k] == old(a[k])
    {
      if 'A' <= a[p + i] <= 'Z' {
        a[p + i] := a[p + i] + ('a' - 'A');
      }
    }
    assert a[..] == Stored(old(a[..]), p, Lowered(t));
  }
}
