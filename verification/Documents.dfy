/** Nested documents addressed by paths, and by dotted strings. */
module Documents {
  import opened Wrappers
  import opened Seqs
  import opened Json

  type Doc = map<string, Json>

  type Path = seq<string>

  function GetPath(doc: Doc, path: Path): Option<Json>
    decreases |path|
  {
    if path == [] || path[0] !in doc then None
    else if |path| == 1 then Some(doc[path[0]])
    else if doc[path[0]].Obj? then GetPath(doc[path[0]].fields, path[1..])
    else None
  }

  function SetPath(doc: Doc, path: Path, value: Json): Doc
    decreases |path|
  {
    if path == [] then doc
    else if |path| == 1 then doc[path[0] := value]
    else if path[0] in doc && doc[path[0]].Obj? then doc[path[0] := Obj(SetPath(doc[path[0]].fields, path[1..], value))]
    else doc
  }

  // Neither path runs through the other.
  predicate Apart(p: Path, q: Path) {
    p != [] && q != [] && (p[0] != q[0] || Apart(p[1..], q[1..]))
  }

  lemma {:induction false} ApartSymmetric(p: Path, q: Path)
    ensures Apart(p, q) <==> Apart(q, p)
  {
    if p != [] && q != [] {
      ApartSymmetric(p[1..], q[1..]);
    }
  }

  // Apart is what it should be: no path is a prefix of the other.
  lemma {:induction false} ApartIffNotPrefix(p: Path, q: Path)
    ensures Apart(p, q) <==> !(p <= q) && !(q <= p)
  {
    if p != [] && q != [] {
      ApartIffNotPrefix(p[1..], q[1..]);
      assert p == [p[0]] + p[1..] && q == [q[0]] + q[1..];
    }
  }

  ghost predicate LeadsDown(levels: seq<Doc>, path: Path, i: nat) {
    && i + 1 < |levels| && i < |path|
    && path[i] in levels[i] && levels[i][path[i]] == Obj(levels[i + 1])
  }

  // The dictionaries along a path, the first one the document.
  ghost predicate Descends(levels: seq<Doc>, doc: Doc, path: Path) {
    |levels| == |path| > 0 && levels[0] == doc && forall i: nat :: i + 1 < |levels| ==> LeadsDown(levels, path, i)
  }

  ghost predicate EndsIn(levels: seq<Doc>, path: Path, value: Json)
    requires |levels| == |path| > 0
  {
    path[|path| - 1] in levels[|path| - 1] && levels[|path| - 1][path[|path| - 1]] == value
  }

  // A path leads to a value exactly when every name on it is found in the dictionary under the
  // names before, the last one with this value.
  lemma {:induction false} GetPathIff(doc: Doc, path: Path, value: Json)
    ensures GetPath(doc, path) == Some(value)
            <==> exists levels :: Descends(levels, doc, path) && EndsIn(levels, path, value)
    decreases |path|
  {
    if |path| == 1 {
      assert Descends([doc], doc, path);
    } else if |path| > 1 {
      if GetPath(doc, path) == Some(value) {
        var inner := doc[path[0]].fields;
        GetPathIff(inner, path[1..], value);
        var below :| Descends(below, inner, path[1..]) && EndsIn(below, path[1..], value);
        OneLevelUp(doc, inner, below, path, value);
      }
      if levels :| Descends(levels, doc, path) && EndsIn(levels, path, value) {
        OneLevelDown(doc, levels, path, value);
        GetPathIff(levels[1], path[1..], value);
      }
    }
  }

  lemma {:induction false} OneLevelUp(doc: Doc, inner: Doc, below: seq<Doc>, path: Path, value: Json)
    requires |path| > 1 && path[0] in doc && doc[path[0]] == Obj(inner)
    requires Descends(below, inner, path[1..]) && EndsIn(below, path[1..], value)
    ensures Descends([doc] + below, doc, path) && EndsIn([doc] + below, path, value)
  {
    var levels := [doc] + below;
    forall i: nat | i + 1 < |levels|
      ensures LeadsDown(levels, path, i)
    {
      assert i > 0 ==> LeadsDown(below, path[1..], i - 1);
    }
  }

  lemma {:induction false} OneLevelDown(doc: Doc, levels: seq<Doc>, path: Path, value: Json)
    requires |path| > 1 && Descends(levels, doc, path) && EndsIn(levels, path, value)
    ensures path[0] in doc && doc[path[0]] == Obj(levels[1])
    ensures Descends(levels[1..], levels[1], path[1..]) && EndsIn(levels[1..], path[1..], value)
  {
    var below := levels[1..];
    assert LeadsDown(levels, path, 0);
    forall i: nat | i + 1 < |below|
      ensures LeadsDown(below, path[1..], i)
    {
      assert LeadsDown(levels, path, i + 1);
    }
  }

  // There is a dictionary to write the last name into.
  predicate HasParent(doc: Doc, path: Path)
    requires path != []
  {
    |path| == 1 || (var parent := GetPath(doc, path[..|path| - 1]); parent.Some? && parent.value.Obj?)
  }

  lemma {:induction false} ParentBelow(doc: Doc, path: Path)
    requires |path| > 1 && HasParent(doc, path)
    ensures path[0] in doc && doc[path[0]].Obj? && HasParent(doc[path[0]].fields, path[1..])
  {
    var init := path[..|path| - 1];
    assert init[1..] == path[1..][..|path| - 2];
  }

  lemma {:induction false} GetAfterSet(doc: Doc, p: Path, v: Json)
    requires p != [] && HasParent(doc, p)
    ensures GetPath(SetPath(doc, p, v), p) == Some(v)
    decreases |p|
  {
    if |p| > 1 {
      ParentBelow(doc, p);
      GetAfterSet(doc[p[0]].fields, p[1..], v);
    }
  }

  lemma {:induction false} GetElsewhere(doc: Doc, p: Path, v: Json, q: Path)
    requires Apart(p, q)
    ensures GetPath(SetPath(doc, p, v), q) == GetPath(doc, q)
    decreases |p|
  {
    if p[0] == q[0] && |p| > 1 && p[0] in doc && doc[p[0]].Obj? {
      GetElsewhere(doc[p[0]].fields, p[1..], v, q[1..]);
    }
  }

  lemma {:induction false} SetTwice(doc: Doc, p: Path, v: Json, w: Json)
    requires GetPath(doc, p).Some?
    ensures SetPath(SetPath(doc, p, v), p, w) == SetPath(doc, p, w)
    decreases |p|
  {
    if |p| > 1 {
      SetTwice(doc[p[0]].fields, p[1..], v, w);
      var inner, k := doc[p[0]].fields, p[0];
      assert doc[k := Obj(SetPath(inner, p[1..], v))][k := Obj(SetPath(inner, p[1..], w))]
          == doc[k := Obj(SetPath(inner, p[1..], w))];
    } else {
      assert doc[p[0] := v][p[0] := w] == doc[p[0] := w];
    }
  }

  lemma {:induction false} SetSame(doc: Doc, p: Path)
    requires GetPath(doc, p).Some?
    ensures SetPath(doc, p, GetPath(doc, p).value) == doc
    decreases |p|
  {
    if |p| > 1 {
      SetSame(doc[p[0]].fields, p[1..]);
    }
    assert doc[p[0] := doc[p[0]]] == doc;
  }

  lemma {:induction false} SetsCommute(doc: Doc, p: Path, v: Json, q: Path, w: Json)
    requires Apart(p, q) && GetPath(doc, p).Some? && GetPath(doc, q).Some?
    ensures SetPath(SetPath(doc, p, v), q, w) == SetPath(SetPath(doc, q, w), p, v)
    decreases |p|
  {
    var k, l := p[0], q[0];
    if k == l {
      var inner := doc[k].fields;
      SetsCommute(inner, p[1..], v, q[1..], w);
      var pv, qw := SetPath(inner, p[1..], v), SetPath(inner, q[1..], w);
      UpdateTwice(doc, k, Obj(pv), Obj(SetPath(pv, q[1..], w)));
      UpdateTwice(doc, k, Obj(qw), Obj(SetPath(pv, q[1..], w)));
    } else {
      UpdatesCommute(doc, k, SetPath(doc, p, v)[k], l, SetPath(doc, q, w)[l]);
    }
  }

  lemma {:induction false} UpdateTwice(doc: Doc, k: string, v: Json, w: Json)
    ensures doc[k := v][k := w] == doc[k := w]
  {
  }

  lemma {:induction false} UpdatesCommute(doc: Doc, k: string, v: Json, l: string, w: Json)
    requires k != l
    ensures doc[k := v][l := w] == doc[l := w][k := v]
  {
  }

  /******* Dotted strings *******/

  predicate DotFree(path: Path) {
    path != [] && forall i :: 0 <= i < |path| ==> '.' !in path[i]
  }

  function Join(path: Path): string
    requires path != []
  {
    if |path| == 1 then path[0] else path[0] + "." + Join(path[1..])
  }

  // The item is split at its first dot, the rest is looked up one level down.
  function GetDotted(doc: Doc, item: string): Option<Json>
    decreases |item|
  {
    var i := FirstIndex('.', item);
    if i == |item| then (if item in doc then Some(doc[item]) else None)
    else if item[..i] in doc && doc[item[..i]].Obj? then GetDotted(doc[item[..i]].fields, item[i + 1..])
    else None
  }

  // The item is split at its last dot; the dictionary found under the prefix is changed in
  // place. Without such a dictionary nothing is written.
  function SetDotted(doc: Doc, item: string, value: Json): Option<Doc>
    decreases |item|
  {
    var i := LastIndex('.', item);
    if i == |item| then Some(doc[item := value])
    else
      match GetDotted(doc, item[..i])
      case Some(Obj(inner)) => SetDotted(doc, item[..i], Obj(inner[item[i + 1..] := value]))
      case _ => None
  }

  lemma {:induction false} GetDottedIsGetPath(doc: Doc, path: Path)
    requires DotFree(path)
    ensures GetDotted(doc, Join(path)) == GetPath(doc, path)
    decreases |path|
  {
    var item := Join(path);
    if |path| > 1 {
      FirstIndexAfter('.', path[0], Join(path[1..]));
      assert item == path[0] + ['.'] + Join(path[1..]);
      assert item[..|path[0]|] == path[0] && item[|path[0]| + 1..] == Join(path[1..]);
      if path[0] in doc && doc[path[0]].Obj? {
        GetDottedIsGetPath(doc[path[0]].fields, path[1..]);
      }
    } else {
      assert item == path[0] && forall k :: 0 <= k < |item| ==> item[k] in item;
    }
  }

  lemma {:induction false} JoinSnoc(init: Path, last: string)
    requires init != []
    ensures Join(init + [last]) == Join(init) + "." + last
  {
    if |init| > 1 {
      JoinSnoc(init[1..], last);
      assert (init + [last])[1..] == init[1..] + [last];
    } else {
      assert (init + [last])[1..] == [last];
    }
  }

  lemma {:induction false} SetThroughParent(doc: Doc, init: Path, last: string, value: Json)
    requires init != []
    ensures match GetPath(doc, init)
            case Some(Obj(inner)) => SetPath(doc, init + [last], value) == SetPath(doc, init, Obj(inner[last := value]))
            case _ => SetPath(doc, init + [last], value) == doc
    decreases |init|
  {
    assert (init + [last])[1..] == init[1..] + [last];
    if |init| > 1 && init[0] in doc && doc[init[0]].Obj? {
      SetThroughParent(doc[init[0]].fields, init[1..], last, value);
      assert doc[init[0] := Obj(doc[init[0]].fields)] == doc;
    }
  }

  lemma {:induction false} PresentHasParent(doc: Doc, path: Path)
    requires path != [] && GetPath(doc, path).Some?
    ensures HasParent(doc, path)
    decreases |path|
  {
    if |path| > 1 {
      var inner := doc[path[0]].fields;
      PresentHasParent(inner, path[1..]);
      assert path[1..][..|path| - 2] == path[..|path| - 1][1..];
    }
  }

  lemma {:induction false} SplitsAtLastDot(init: Path, last: string)
    requires init != [] && DotFree(init + [last])
    ensures var item, prefix := Join(init + [last]), Join(init);
            var i := LastIndex('.', item);
            i == |prefix| < |item| && item[..i] == prefix && item[i + 1..] == last
  {
    assert (init + [last])[|init|] == last;
    JoinSnoc(init, last);
    LastIndexBefore('.', Join(init), last);
    assert Join(init + [last]) == Join(init) + ['.'] + last;
  }

  lemma {:induction false} SetDottedInParent(doc: Doc, init: Path, last: string, value: Json)
    requires init != [] && DotFree(init) && '.' !in last
    ensures SetDotted(doc, Join(init + [last]), value) ==
            match GetPath(doc, init)
            case Some(Obj(inner)) => SetDotted(doc, Join(init), Obj(inner[last := value]))
            case _ => None
  {
    SplitsAtLastDot(init, last);
    GetDottedIsGetPath(doc, init);
  }

  // Splitting at the first dot to read and at the last dot to write come to the same path.
  // A write fails exactly when the path has no parent to write into.
  lemma {:induction false} SetDottedIsSetPath(doc: Doc, path: Path, value: Json)
    requires DotFree(path)
    ensures SetDotted(doc, Join(path), value) == if HasParent(doc, path) then Some(SetPath(doc, path, value)) else None
    decreases |path|
  {
    if |path| == 1 {
      var item := Join(path);
      assert item == path[0] && forall k :: 0 <= k < |item| ==> item[k] in item;
    } else {
      hide SetDotted, Join, SetPath;
      var init, last := path[..|path| - 1], path[|path| - 1];
      assert path == init + [last];
      SetDottedInParent(doc, init, last, value);
      SetThroughParent(doc, init, last, value);
      match GetPath(doc, init)
      case Some(Obj(inner)) =>
        PresentHasParent(doc, init);
        SetDottedIsSetPath(doc, init, Obj(inner[last := value]));
      case _ =>
    }
  }

  class NestedDict {
    var data: Doc

    constructor (data: Doc)
      ensures this.data == data
    {
      this.data := data;
    }

    method GetItem(item: string) returns (value: Option<Json>)
      ensures value == GetDotted(data, item)
    {
      var rest, level := item, data;
      while true
        invariant GetDotted(level, rest) == GetDotted(data, item)
        decreases |rest|
      {
        var i := FirstIndex('.', rest);
        if i == |rest| {
          return if rest in level then Some(level[rest]) else None;
        }
        var prefix := rest[..i];
        if prefix !in level || !level[prefix].Obj? {
          return None;
        }
        rest, level := rest[i + 1..], level[prefix].fields;
      }
    }

    method SetItem(item: string, value: Json) returns (ok: bool)
      modifies this
      ensures ok <==> SetDotted(old(data), item, value).Some?
      ensures data == if ok then SetDotted(old(data), item, value).value else old(data)
    {
      var rest, v := item, value;
      while true
        invariant SetDotted(data, rest, v) == SetDotted(old(data), item, value) && data == old(data)
        decreases |rest|
      {
        var i := LastIndex('.', rest);
        if i == |rest| {
          data := data[rest := v];
          return true;
        }
        var parent := GetItem(rest[..i]);
        if parent.None? || !parent.value.Obj? {
          return false;
        }
        rest, v := rest[..i], Obj(parent.value.fields[rest[i + 1..] := v]);
      }
    }
  }

  /******* Many writes at once *******/

  datatype Write = Write(path: Path, value: Json)

  function SetAll(doc: Doc, writes: seq<Write>): Doc
    decreases |writes|
  {
    if writes == [] then doc else SetAll(SetPath(doc, writes[0].path, writes[0].value), writes[1..])
  }

  // Both paths lead somewhere and away from each other.
  ghost predicate Independent(writes: seq<Write>) {
    forall i, j :: 0 <= i < j < |writes| ==> PathsApart(writes, i, j)
  }

  ghost predicate PathsApart(writes: seq<Write>, i: int, j: int)
    requires 0 <= i < j < |writes|
  {
    Apart(writes[i].path, writes[j].path)
  }

  ghost predicate Present(doc: Doc, writes: seq<Write>) {
    forall w :: w in writes ==> GetPath(doc, w.path).Some?
  }

  lemma {:induction false} IndependentTail(writes: seq<Write>)
    requires writes != [] && Independent(writes)
    ensures Independent(writes[1..])
    ensures forall w :: w in writes[1..] ==> Apart(writes[0].path, w.path)
  {
    forall i, j | 0 <= i < j < |writes[1..]|
      ensures PathsApart(writes[1..], i, j)
    {
      assert PathsApart(writes, i + 1, j + 1);
    }
    forall w | w in writes[1..]
      ensures Apart(writes[0].path, w.path)
    {
      var i :| 0 <= i < |writes[1..]| && writes[1..][i] == w;
      assert PathsApart(writes, 0, i + 1);
    }
  }

  lemma {:induction false} PresentAfterSet(doc: Doc, p: Path, v: Json, writes: seq<Write>)
    requires Present(doc, writes) && forall w :: w in writes ==> Apart(p, w.path)
    ensures Present(SetPath(doc, p, v), writes)
  {
    forall w | w in writes
      ensures GetPath(SetPath(doc, p, v), w.path).Some?
    {
      GetElsewhere(doc, p, v, w.path);
    }
  }

  // Away from every written path nothing changes.
  lemma {:induction false} SetAllElsewhere(doc: Doc, writes: seq<Write>, q: Path)
    requires forall w :: w in writes ==> Apart(w.path, q)
    ensures GetPath(SetAll(doc, writes), q) == GetPath(doc, q)
    decreases |writes|
  {
    if writes != [] {
      GetElsewhere(doc, writes[0].path, writes[0].value, q);
      SetAllElsewhere(SetPath(doc, writes[0].path, writes[0].value), writes[1..], q);
    }
  }

  // Every written path holds what was written there.
  lemma {:induction false} SetAllThere(doc: Doc, writes: seq<Write>, i: nat)
    requires Independent(writes) && Present(doc, writes) && i < |writes|
    ensures GetPath(SetAll(doc, writes), writes[i].path) == Some(writes[i].value)
    decreases |writes|
  {
    var w, later := writes[0], writes[1..];
    var next := SetPath(doc, w.path, w.value);
    IndependentTail(writes);
    PresentAfterSet(doc, w.path, w.value, later);
    if i == 0 {
      PresentHasParent(doc, w.path);
      GetAfterSet(doc, w.path, w.value);
      forall x | x in later
        ensures Apart(x.path, w.path)
      {
        ApartSymmetric(w.path, x.path);
      }
      SetAllElsewhere(next, later, w.path);
    } else {
      SetAllThere(next, later, i - 1);
    }
  }

  // A write that is apart from all later ones can be made after them.
  lemma {:induction false} SetAllAfter(doc: Doc, w: Write, writes: seq<Write>)
    requires Independent(writes) && Present(doc, writes) && GetPath(doc, w.path).Some?
    requires forall x :: x in writes ==> Apart(w.path, x.path)
    ensures SetAll(SetPath(doc, w.path, w.value), writes) == SetPath(SetAll(doc, writes), w.path, w.value)
    decreases |writes|
  {
    if writes != [] {
      var x, later := writes[0], writes[1..];
      IndependentTail(writes);
      ApartSymmetric(w.path, x.path);
      PresentAfterSet(doc, x.path, x.value, later);
      GetElsewhere(doc, x.path, x.value, w.path);
      SetsCommute(doc, w.path, w.value, x.path, x.value);
      SetAllAfter(SetPath(doc, x.path, x.value), w, later);
    }
  }

  predicate SamePaths(a: seq<Write>, b: seq<Write>) {
    |a| == |b| && forall i :: 0 <= i < |a| ==> a[i].path == b[i].path
  }

  // A second round of writes to the same paths wins.
  lemma {:induction false} SetAllTwice(doc: Doc, a: seq<Write>, b: seq<Write>)
    requires Independent(a) && Present(doc, a) && SamePaths(a, b)
    ensures SetAll(SetAll(doc, a), b) == SetAll(doc, b)
    decreases |a|
  {
    if a != [] {
      var x, y, a', b' := a[0], b[0], a[1..], b[1..];
      IndependentTail(a);
      assert forall i :: 0 <= i < |a'| ==> a'[i].path == b'[i].path;
      PresentAfterSet(doc, x.path, x.value, a');
      PresentAfterSet(doc, x.path, y.value, a');
      PresentHasParent(doc, x.path);
      GetAfterSet(doc, x.path, x.value);
      SetAllAfter(SetPath(doc, x.path, x.value), y, a');
      SetTwice(doc, x.path, x.value, y.value);
      SetAllTwice(SetPath(doc, x.path, y.value), a', b');
    }
  }

  // The order of independent writes does not matter.
  lemma {:induction false} SetAllAnyOrder(doc: Doc, a: seq<Write>, b: seq<Write>)
    requires Independent(a) && Independent(b) && Present(doc, a)
    requires multiset(a) == multiset(b)
    ensures SetAll(doc, a) == SetAll(doc, b)
    decreases |a|
  {
    if a == [] {
      assert |b| == |multiset(b)| == 0;
    } else {
      var w := a[0];
      assert w in multiset(b);
      var i :| 0 <= i < |b| && b[i] == w;
      var rest := b[..i] + b[i + 1..];
      IndependentTail(a);
      IndependentWithout(b, i);
      SameWithout(a, b, i);
      forall x | x in rest
        ensures GetPath(doc, x.path).Some? && Apart(w.path, x.path)
      {
        assert x in multiset(a[1..]);
      }
      MoveToFront(doc, b, i);
      PresentAfterSet(doc, w.path, w.value, a[1..]);
      SetAllAnyOrder(SetPath(doc, w.path, w.value), a[1..], rest);
    }
  }

  lemma {:induction false} IndependentWithout(b: seq<Write>, i: nat)
    requires Independent(b) && i < |b|
    ensures Independent(b[..i] + b[i + 1..])
  {
    var rest := b[..i] + b[i + 1..];
    forall j, k | 0 <= j < k < |rest|
      ensures PathsApart(rest, j, k)
    {
      assert PathsApart(b, if j < i then j else j + 1, if k < i then k else k + 1);
    }
  }

  lemma {:induction false} MoveToFront(doc: Doc, b: seq<Write>, i: nat)
    requires Independent(b) && Present(doc, b) && i < |b|
    ensures SetAll(doc, b) == SetAll(SetPath(doc, b[i].path, b[i].value), b[..i] + b[i + 1..])
    decreases |b|
  {
    if i == 0 {
      assert b[..0] + b[1..] == b[1..];
    } else {
      var x := b[0];
      var next := SetPath(doc, x.path, x.value);
      IndependentTail(b);
      PresentAfterSet(doc, x.path, x.value, b[1..]);
      MoveToFront(next, b[1..], i - 1);
      assert PathsApart(b, 0, i);
      SetsCommute(doc, x.path, x.value, b[i].path, b[i].value);
      assert b[1..][..i - 1] + b[1..][i..] == (b[..i] + b[i + 1..])[1..];
    }
  }
}
