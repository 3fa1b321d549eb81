/** String helpers shared by the class-name builders: JavaScript's
    `split(/\s+/)`, `join`, prefixing every piece, and `includes`. */
module Strings {

  /** The characters matched by `\s` in a JavaScript regular expression. */
  predicate IsWs(c: char)
  {
    || c == ' ' || c == '\t' || c == '\n' || c == '\U{B}' || c == '\U{C}' || c == '\r'
    || c == '\U{A0}' || c == '\U{1680}' || ('\U{2000}' <= c <= '\U{200A}')
    || c == '\U{2028}' || c == '\U{2029}' || c == '\U{202F}' || c == '\U{205F}'
    || c == '\U{3000}' || c == '\U{FEFF}'
  }

  predicate NoWs(s: string)
  {
    forall i :: 0 <= i < |s| ==> !IsWs(s[i])
  }

  /** The first index at or after `i` that holds whitespace, or `|s|`. */
  function WsStart(s: string, i: nat): (j: nat)
    requires i <= |s|
    ensures i <= j <= |s|
    ensures forall k :: i <= k < j ==> !IsWs(s[k])
    ensures j < |s| ==> IsWs(s[j])
    decreases |s| - i
  {
    if i == |s| || IsWs(s[i]) then i else WsStart(s, i + 1)
  }

  /** The first index at or after `i` that does not hold whitespace, or `|s|`. */
  function WsEnd(s: string, i: nat): (j: nat)
    requires i <= |s|
    ensures i <= j <= |s|
    ensures forall k :: i <= k < j ==> IsWs(s[k])
    ensures j < |s| ==> !IsWs(s[j])
    decreases |s| - i
  {
    if i == |s| || !IsWs(s[i]) then i else WsEnd(s, i + 1)
  }

  /** `s.split(/\s+/)`: the pieces between maximal runs of whitespace. A
      leading (trailing) run yields an empty first (last) piece, and the
      empty string yields `[""]`. */
  function SplitWs(s: string): (r: seq<string>)
    ensures |r| >= 1
    ensures forall k :: 0 <= k < |r| ==> NoWs(r[k])
    ensures NoWs(s) ==> r == [s]
    decreases |s|
  {
    var i := WsStart(s, 0);
    if i == |s| then [s]
    else
      var j := WsEnd(s, i);
      [s[..i]] + SplitWs(s[j..])
  }

  /** `ps.join(sep)`. */
  function Join(ps: seq<string>, sep: string): string
  {
    if |ps| == 0 then ""
    else if |ps| == 1 then ps[0]
    else ps[0] + sep + Join(ps[1..], sep)
  }

  /** `xs.map((x) => p + x)`. */
  function PrefixAll(p: string, xs: seq<string>): (r: seq<string>)
    ensures |r| == |xs|
    ensures forall i :: 0 <= i < |xs| ==> r[i] == p + xs[i]
  {
    if xs == [] then [] else [p + xs[0]] + PrefixAll(p, xs[1..])
  }

  /** Removes the prefix `p` from every element that carries it. */
  function StripAll(p: string, xs: seq<string>): (r: seq<string>)
    ensures |r| == |xs|
    ensures forall i :: 0 <= i < |xs| && p <= xs[i] ==> p + r[i] == xs[i]
  {
    if xs == [] then []
    else [if p <= xs[0] then xs[0][|p|..] else xs[0]] + StripAll(p, xs[1..])
  }

  /** `s.includes(sub)`. */
  predicate Contains(s: string, sub: string)
  {
    exists i | 0 <= i <= |s| - |sub| :: OccursAt(s, sub, i)
  }

  /** `sub` occurs in `s` starting at index `i`. */
  predicate OccursAt(s: string, sub: string, i: int)
  {
    0 <= i <= |s| - |sub| && s[i..i + |sub|] == sub
  }

  /** `sub` does not occur in `s` when no position where it could start
      holds its first character. */
  lemma AbsentByFirstChar(s: string, sub: string)
    requires sub != ""
    requires forall i :: 0 <= i <= |s| - |sub| ==> s[i] != sub[0]
    ensures !Contains(s, sub)
  {
    forall i | 0 <= i <= |s| - |sub| ensures !OccursAt(s, sub, i) {
      assert s[i..i + |sub|][0] == s[i];
    }
  }

  /** Pieces that are non-empty and free of whitespace, joined by single
      spaces, split back into the same pieces. */
  lemma {:induction false} SplitJoin(ps: seq<string>)
    requires |ps| >= 1
    requires forall k :: 0 <= k < |ps| ==> ps[k] != "" && NoWs(ps[k])
    ensures SplitWs(Join(ps, " ")) == ps
  {
    if |ps| == 1 {
      assert Join(ps, " ") == ps[0];
    } else {
      var rest := Join(ps[1..], " ");
      JoinStartsWith(ps[1..], " ");
      var s := ps[0] + " " + rest;
      assert Join(ps, " ") == s;
      var n := |ps[0]|;
      assert s[n] == ' ';
      assert forall k :: 0 <= k < n ==> s[k] == ps[0][k];
      var i := WsStart(s, 0);
      assert i == n;
      assert s[n + 1] == rest[0];
      var j := WsEnd(s, n);
      assert j == n + 1;
      assert s[..n] == ps[0];
      assert s[j..] == rest;
      SplitJoin(ps[1..]);
    }
  }

  /** A join whose first piece is non-empty starts with that piece's first character. */
  lemma {:induction false} JoinStartsWith(ps: seq<string>, sep: string)
    requires |ps| >= 1 && ps[0] != ""
    ensures |Join(ps, sep)| >= 1 && Join(ps, sep)[0] == ps[0][0]
  {
    if |ps| > 1 {
      assert Join(ps, sep) == ps[0] + sep + Join(ps[1..], sep);
    }
  }

  /** Prefixing then stripping the same prefix gives back the input. */
  lemma {:induction false} StripPrefixAll(p: string, xs: seq<string>)
    ensures StripAll(p, PrefixAll(p, xs)) == xs
  {
    var r := StripAll(p, PrefixAll(p, xs));
    forall i | 0 <= i < |xs| ensures r[i] == xs[i] {
      var y := PrefixAll(p, xs)[i];
      assert y == p + xs[i] && p <= y;
      assert (p + r[i])[|p|..] == r[i];
      assert y[|p|..] == xs[i];
    }
  }
}
