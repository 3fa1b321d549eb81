/** The JavaScript values that appear in style configurations and tables:
    strings, arrays of strings, plain objects (entries in insertion order)
    and every other value, of which only its truthiness matters. */
module Js {

  datatype Option<+T> = None | Some(value: T) {
    /** The value, or `default` when absent: a destructuring default. */
    function GetOr(default: T): T
    {
      match this
      case Some(v) => v
      case None => default
    }
  }

  datatype JsVal =
    | Str(s: string)
    | Arr(items: seq<string>)
    | Obj(entries: seq<(string, JsVal)>)
    | Other(truthy: bool)

  /** `undefined` (as well as `null`, `false` and `0`). */
  const Undefined: JsVal := Other(false)

  /** JavaScript truthiness: the empty string is falsy, arrays and objects are truthy. */
  predicate Truthy(v: JsVal)
  {
    match v
    case Str(s) => s != ""
    case Arr(_) => true
    case Obj(_) => true
    case Other(t) => t
  }

  /** The index of the entry with key `k`, searching from `from`. */
  function FindFrom(es: seq<(string, JsVal)>, k: string, from: nat): (r: Option<nat>)
    requires from <= |es|
    ensures r.Some? ==> from <= r.value < |es| && es[r.value].0 == k
    ensures r.Some? ==> forall j :: from <= j < r.value ==> es[j].0 != k
    ensures r.None? <==> forall j :: from <= j < |es| ==> es[j].0 != k
    decreases |es| - from
  {
    if from == |es| then None
    else if es[from].0 == k then Some(from)
    else FindFrom(es, k, from + 1)
  }

  /** The index of the entry with key `k`, if the object has one. */
  function Find(es: seq<(string, JsVal)>, k: string): (r: Option<nat>)
    ensures r.Some? ==> r.value < |es| && es[r.value].0 == k
    ensures r.None? <==> forall j :: 0 <= j < |es| ==> es[j].0 != k
  {
    FindFrom(es, k, 0)
  }

  /** `v[k]`: the value stored under `k` in an object, `undefined` otherwise. */
  function Member(v: JsVal, k: string): (r: JsVal)
    ensures v.Obj? && Find(v.entries, k).Some? ==> r == v.entries[Find(v.entries, k).value].1
    ensures (!v.Obj? || Find(v.entries, k).None?) ==> r == Undefined
  {
    if v.Obj? then
      match Find(v.entries, k)
      case Some(i) => v.entries[i].1
      case None => Undefined
    else Undefined
  }

  /** `v[path[0]][path[1]]...`. */
  function Path(v: JsVal, path: seq<string>): JsVal
    decreases path
  {
    if path == [] then v else Path(Member(v, path[0]), path[1..])
  }

  /** Looking up one more key after a path. */
  lemma {:induction false} PathSnoc(v: JsVal, path: seq<string>, k: string)
    ensures Path(v, path + [k]) == Member(Path(v, path), k)
    decreases path
  {
    if path == [] {
      assert [] + [k] == [k];
      assert [k][1..] == [];
    } else {
      assert (path + [k])[1..] == path[1..] + [k];
      PathSnoc(Member(v, path[0]), path[1..], k);
    }
  }

  /** A two-key path is two lookups. */
  lemma Path2(v: JsVal, a: string, b: string)
    ensures Path(v, [a, b]) == Member(Member(v, a), b)
  {
    assert [a, b][1..] == [b];
    assert [b][1..] == [];
    assert Path(Member(v, a), [b]) == Path(Member(Member(v, a), b), []);
  }

  /** The entry with key `k` is the one at index `i` when no earlier entry has that key. */
  lemma FindAt(es: seq<(string, JsVal)>, k: string, i: nat)
    requires i < |es| && es[i].0 == k
    requires forall j :: 0 <= j < i ==> es[j].0 != k
    ensures Find(es, k) == Some(i)
  {
    FindAtFrom(es, k, i, 0);
  }

  lemma {:induction false} FindAtFrom(es: seq<(string, JsVal)>, k: string, i: nat, from: nat)
    requires from <= i < |es| && es[i].0 == k
    requires forall j :: from <= j < i ==> es[j].0 != k
    ensures FindFrom(es, k, from) == Some(i)
    decreases i - from
  {
    if from < i {
      FindAtFrom(es, k, i, from + 1);
    }
  }

  /** A three-key path is three lookups. */
  lemma Path3(v: JsVal, a: string, b: string, c: string)
    ensures Path(v, [a, b, c]) == Member(Member(Member(v, a), b), c)
  {
    assert [a, b, c][1..] == [b, c];
    Path2(Member(v, a), b, c);
  }

  /** A class list: a value twMerge takes as one argument and turns into tokens. */
  predicate IsClassList(v: JsVal)
  {
    v.Str? || v.Arr?
  }

  // ---------------------------------------------------------------------
  // Removing a key at every depth

  /** `v` with every entry keyed `k` removed, at every depth. */
  function Drop(v: JsVal, k: string): JsVal
    decreases v, 1, 0
  {
    if v.Obj? then Obj(DropFrom(v, k, 0)) else v
  }

  /** The entries of `node` from index `i` on, less those keyed `k`, each
      value with `k` dropped in turn. */
  function DropFrom(node: JsVal, k: string, i: nat): seq<(string, JsVal)>
    requires node.Obj? && i <= |node.entries|
    decreases node, 0, |node.entries| - i
  {
    if i == |node.entries| then []
    else
      var (key, val) := node.entries[i];
      (if key == k then [] else [(key, Drop(val, k))]) + DropFrom(node, k, i + 1)
  }

  /** The value under `j` among the entries from index `i` on. */
  function MemberFrom(es: seq<(string, JsVal)>, j: string, i: nat): JsVal
    requires i <= |es|
  {
    match FindFrom(es, j, i)
    case Some(m) => es[m].1
    case None => Undefined
  }

  /** Looking up in an object whose first entry is `e`. */
  lemma MemberCons(e: (string, JsVal), rest: seq<(string, JsVal)>, j: string)
    ensures Member(Obj([e] + rest), j) == if e.0 == j then e.1 else Member(Obj(rest), j)
  {
    var es := [e] + rest;
    if e.0 == j {
      FindAt(es, j, 0);
    } else {
      assert Find(rest, j) == FindFrom(rest, j, 0);
      match FindFrom(rest, j, 0)
      case Some(m) =>
        FindAt(es, j, m + 1);
      case None =>
        assert forall n :: 0 <= n < |es| ==> es[n].0 != j by {
          forall n | 0 <= n < |es| ensures es[n].0 != j {
            if n > 0 {
              assert es[n] == rest[n - 1];
            }
          }
        }
    }
  }

  lemma {:induction false} MemberDropFrom(node: JsVal, k: string, j: string, i: nat)
    requires node.Obj? && i <= |node.entries| && j != k
    ensures Member(Obj(DropFrom(node, k, i)), j) == Drop(MemberFrom(node.entries, j, i), k)
    decreases |node.entries| - i
  {
    if i < |node.entries| {
      MemberDropFrom(node, k, j, i + 1);
      MemberDropStep(node, k, j, i);
    }
  }

  /** One entry of `MemberDropFrom`'s induction. */
  lemma MemberDropStep(node: JsVal, k: string, j: string, i: nat)
    requires node.Obj? && i < |node.entries| && j != k
    requires Member(Obj(DropFrom(node, k, i + 1)), j) == Drop(MemberFrom(node.entries, j, i + 1), k)
    ensures Member(Obj(DropFrom(node, k, i)), j) == Drop(MemberFrom(node.entries, j, i), k)
  {
    var (key, val) := node.entries[i];
    assert MemberFrom(node.entries, j, i) == if key == j then val else MemberFrom(node.entries, j, i + 1);
    if key != k {
      assert DropFrom(node, k, i) == [(key, Drop(val, k))] + DropFrom(node, k, i + 1);
      MemberCons((key, Drop(val, k)), DropFrom(node, k, i + 1), j);
    } else {
      assert DropFrom(node, k, i) == DropFrom(node, k, i + 1);
    }
  }

  /** Dropping `k` commutes with looking up any other key. */
  lemma MemberDrop(v: JsVal, k: string, j: string)
    requires j != k
    ensures Member(Drop(v, k), j) == Drop(Member(v, j), k)
  {
    if v.Obj? {
      MemberDropFrom(v, k, j, 0);
    }
  }

  /** Dropping `k` commutes with following any path that does not mention `k`. */
  lemma {:induction false} PathDrop(v: JsVal, k: string, path: seq<string>)
    requires k !in path
    ensures Path(Drop(v, k), path) == Drop(Path(v, path), k)
    decreases path
  {
    if path != [] {
      MemberDrop(v, k, path[0]);
      PathDrop(Member(v, path[0]), k, path[1..]);
    }
  }
}
