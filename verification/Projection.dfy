/** The hidden projection of order keys that every document write stores next to the document. */
module Projection {
  import opened ByteStrings
  import opened WireValues
  import opened OrderKeys

  const EQ_PREFIX: Bytes := [36, 101, 113, 58]  // "$eq:"

  /** The entry that holds a path's validator-independent key. */
  function EqualityEntry(path: Bytes): Bytes {
    EQ_PREFIX + path
  }

  // ----- paths

  /** The text that a list of further segments adds to a path. */
  function Dotted(rel: seq<Bytes>): Bytes {
    if rel == [] then [] else [DOT] + rel[0] + Dotted(rel[1..])
  }

  /** strings.Split(s, "."). */
  function Split(s: Bytes): (r: seq<Bytes>)
    ensures |r| >= 1
  {
    if s == [] then [[]]
    else
      var rest := Split(s[1..]);
      if s[0] == DOT then [[]] + rest else [[s[0]] + rest[0]] + rest[1..]
  }

  /** Splitting loses nothing. */
  lemma {:induction false} JoinUndoesSplit(s: Bytes)
    ensures Split(s)[0] + Dotted(Split(s)[1..]) == s
    ensures forall i | 0 <= i < |Split(s)| :: DOT !in Split(s)[i]
  {
    if s != [] {
      JoinUndoesSplit(s[1..]);
      var rest := Split(s[1..]);
      assert s == [s[0]] + s[1..];
      if s[0] == DOT {
        assert Split(s)[1..] == rest;
        assert Dotted(rest) == [DOT] + rest[0] + Dotted(rest[1..]);
      } else {
        assert Split(s)[1..] == rest[1..];
      }
    }
  }

  /** The child of a present object value. */
  function Child(x: Option<Wire>, name: Bytes): Option<Wire> {
    if x.Some? && x.value.WObj? && name in x.value.fields then Some(x.value.fields[name]) else None
  }

  /** The value at the end of a path: missing when any parent is missing. */
  function Walk(x: Option<Wire>, rel: seq<Bytes>): Option<Wire>
    decreases rel
  {
    if rel == [] then x else Walk(Child(x, rel[0]), rel[1..])
  }

  function ObjectField(v: Validator, name: Bytes): Option<Validator> {
    var o := Unwrapped(v);
    if SafePathSegment(name) && o.VObject? && name in o.shape then Some(o.shape[name]) else None
  }

  function Resolve(v: Validator, rel: seq<Bytes>): Option<Validator>
    decreases rel
  {
    if rel == [] then Some(v)
    else match ObjectField(v, rel[0])
      case None => None
      case Some(c) => Resolve(c, rel[1..])
  }

  predicate HasEmptySegment(path: Bytes) {
    path == [] || path[0] == DOT || path[|path| - 1] == DOT
    || exists i | 0 <= i < |path| - 1 :: path[i] == DOT == path[i + 1]
  }

  /** The validator that a q.field path names. */
  function FieldValidator(fields: map<Bytes, Validator>, path: Bytes): Option<Validator> {
    var parts := Split(path);
    if HasEmptySegment(path) || !SafePathSegment(parts[0]) || parts[0] !in fields then None
    else Resolve(fields[parts[0]], parts[1..])
  }

  /** Object shapes reachable by a path have safe, dot-free names. */
  predicate Addressable(v: Validator) {
    match v
    case VOptional(c) => Addressable(c)
    case VDefaulted(c, _) => Addressable(c)
    case VObject(shape) => forall k | k in shape :: SafePathSegment(k) && Addressable(shape[k])
    case _ => true
  }

  predicate AddressableFields(fields: map<Bytes, Validator>) {
    forall k | k in fields :: SafePathSegment(k) && Addressable(fields[k])
  }

  /** The i-th name is a declared field of the object that the i-th validator describes. */
  predicate NamesAt(vs: seq<Validator>, rel: seq<Bytes>, i: nat)
    requires i < |rel| && |vs| == |rel| + 1
  {
    var o := Unwrapped(vs[i]);
    var ok := SafePathSegment(rel[i]) && o.VObject? && rel[i] in o.shape && vs[i + 1] == o.shape[rel[i]];
    ok
  }

  /** Declared fields lead from the first validator to the last, one safe name after the other. */
  ghost predicate Leads(vs: seq<Validator>, rel: seq<Bytes>) {
    |vs| == |rel| + 1 && forall i: nat | i < |rel| :: NamesAt(vs, rel, i)
  }

  lemma {:induction false} ResolvedLeads(v: Validator, rel: seq<Bytes>) returns (vs: seq<Validator>)
    requires Resolve(v, rel).Some?
    ensures Leads(vs, rel) && vs[0] == v && vs[|rel|] == Resolve(v, rel).value
    decreases rel
  {
    if rel == [] {
      vs := [v];
    } else {
      var rest := ResolvedLeads(ObjectField(v, rel[0]).value, rel[1..]);
      vs := [v] + rest;
      forall i: nat | i < |rel| ensures NamesAt(vs, rel, i) {
        if i > 0 { assert NamesAt(rest, rel[1..], i - 1); }
      }
    }
  }

  lemma {:induction false} LeadingResolves(vs: seq<Validator>, rel: seq<Bytes>)
    requires Leads(vs, rel)
    ensures Resolve(vs[0], rel) == Some(vs[|rel|])
    decreases rel
  {
    if rel != [] {
      assert NamesAt(vs, rel, 0);
      forall i: nat | i < |rel[1..]| ensures NamesAt(vs[1..], rel[1..], i) { assert NamesAt(vs, rel, i + 1); }
      LeadingResolves(vs[1..], rel[1..]);
    }
  }

  /** A list of names resolves exactly to where the declared fields lead. */
  lemma ResolvesExactly(v: Validator, rel: seq<Bytes>, w: Validator)
    ensures Resolve(v, rel) == Some(w) <==> exists vs :: Leads(vs, rel) && vs[0] == v && vs[|rel|] == w
  {
    if Resolve(v, rel) == Some(w) { var vs := ResolvedLeads(v, rel); }
    if vs :| Leads(vs, rel) && vs[0] == v && vs[|rel|] == w { LeadingResolves(vs, rel); }
  }

  /** Joining dot-free names and splitting gives the names back. */
  lemma {:induction false} SplitUndoesJoin(name: Bytes, rel: seq<Bytes>)
    requires DOT !in name && forall s | s in rel :: DOT !in s
    ensures Split(name + Dotted(rel)) == [name] + rel
    decreases |rel|, |name|
  {
    if name != [] {
      SplitUndoesJoin(name[1..], rel);
      assert (name + Dotted(rel))[1..] == name[1..] + Dotted(rel) && (name + Dotted(rel))[0] == name[0] != DOT;
      assert [name[0]] + name[1..] == name;
    } else if rel != [] {
      SplitUndoesJoin(rel[0], rel[1..]);
      assert name + Dotted(rel) == [DOT] + (rel[0] + Dotted(rel[1..]));
      assert [rel[0]] + rel[1..] == rel;
    }
  }

  lemma OneNameMore(name: Bytes, rest: Bytes)
    requires name != [] && DOT !in name && !HasEmptySegment(rest)
    ensures !HasEmptySegment(name + [DOT] + rest)
  {
    var path, n := name + [DOT] + rest, |name|;
    assert path[0] == name[0] && path[0] in name;
    assert path[|path| - 1] == rest[|rest| - 1];
    forall i | 0 <= i < |path| - 1 ensures !(path[i] == DOT == path[i + 1]) {
      if i < n {
        assert path[i] == name[i] && name[i] in name;
      } else if i == n {
        assert path[i + 1] == rest[0];
      } else {
        assert path[i] == rest[i - n - 1] && path[i + 1] == rest[i - n];
        assert !(rest[i - n - 1] == DOT == rest[i - n - 1 + 1]);
      }
    }
  }

  lemma OneNameAlone(name: Bytes)
    requires name != [] && DOT !in name
    ensures !HasEmptySegment(name)
  {
    assert forall i | 0 <= i < |name| :: name[i] in name;
  }

  /** Nothing, or a dot and a path without an empty segment. */
  predicate Tail(s: Bytes) {
    var ok := s == [] || (s[0] == DOT && !HasEmptySegment(s[1..]));
    ok
  }

  lemma NameThenTail(name: Bytes, s: Bytes)
    requires name != [] && DOT !in name && Tail(s)
    ensures !HasEmptySegment(name + s) && Tail([DOT] + name + s)
  {
    if s == [] {
      assert name + s == name;
      OneNameAlone(name);
    } else {
      assert name + s == name + [DOT] + s[1..];
      OneNameMore(name, s[1..]);
    }
    assert ([DOT] + name + s)[1..] == name + s;
  }

  lemma {:induction false} DottedIsTail(rel: seq<Bytes>)
    requires forall s | s in rel :: SafePathSegment(s)
    ensures Tail(Dotted(rel))
    decreases |rel|
  {
    if rel != [] {
      assert rel[0] in rel;
      DottedIsTail(rel[1..]);
      NameThenTail(rel[0], Dotted(rel[1..]));
    }
  }

  /** A path of safe names is the field that they lead to, when the first is declared. */
  lemma SafePathsAreFields(fields: map<Bytes, Validator>, name: Bytes, rel: seq<Bytes>)
    requires SafePathSegment(name) && forall s | s in rel :: SafePathSegment(s)
    ensures FieldValidator(fields, name + Dotted(rel)) == if name in fields then Resolve(fields[name], rel) else None
  {
    SplitUndoesJoin(name, rel);
    DottedIsTail(rel);
    NameThenTail(name, Dotted(rel));
    assert ([name] + rel)[1..] == rel;
  }

  // ----- entries

  /** Both entries of a path hold the keys of the value found there. */
  predicate Entry(env: Env, out: map<Bytes, Bytes>, path: Bytes, v: Validator, x: Option<Wire>) {
    && path in out && EqualityEntry(path) in out
    && OrderKey(env, v, x) == Some(out[path])
    && GenericKey(env, x) == Some(out[EqualityEntry(path)])
  }

  predicate Below(path: Bytes, k: Bytes) {
    path + [DOT] <= k || EqualityEntry(path) + [DOT] <= k
  }

  /** The entries that writing a path and its nested paths may touch. */
  predicate Touches(path: Bytes, k: Bytes) {
    k == path || k == EqualityEntry(path) || Below(path, k)
  }

  ghost predicate SameOutside(was: map<Bytes, Bytes>, now: map<Bytes, Bytes>, path: Bytes) {
    forall k | !Touches(path, k) :: (k in was <==> k in now) && (k in was ==> now[k] == was[k])
  }

  ghost predicate SameNotBelow(was: map<Bytes, Bytes>, now: map<Bytes, Bytes>, path: Bytes) {
    forall k | !Below(path, k) :: (k in was <==> k in now) && (k in was ==> now[k] == was[k])
  }

  /** All entries of the paths strictly below a path are in place. */
  ghost predicate NestedEntries(env: Env, out: map<Bytes, Bytes>, prefix: Bytes, v: Validator, x: Option<Wire>) {
    forall rel: seq<Bytes> | rel != [] && Resolve(v, rel).Some? ::
      Entry(env, out, prefix + Dotted(rel), Resolve(v, rel).value, Walk(x, rel))
  }

  ghost predicate AllEntries(env: Env, out: map<Bytes, Bytes>, prefix: Bytes, v: Validator, x: Option<Wire>) {
    Entry(env, out, prefix, v, x) && NestedEntries(env, out, prefix, v, x)
  }

  predicate HasKeys(env: Env, v: Validator, x: Option<Wire>) {
    OrderKey(env, v, x).Some? && GenericKey(env, x).Some?
  }

  /** Nothing below a path stops its projection: the nesting is within the limit, present parents are
      objects, and every value has its keys. */
  predicate Projectable(env: Env, v: Validator, x: Option<Wire>, depth: nat)
    decreases v
  {
    var o := Unwrapped(v);
    depth <= MAX_DEPTH && (o.VObject? ==>
      && (x.Some? ==> x.value.WObj?)
      && forall n | n in o.shape ::
           HasKeys(env, o.shape[n], Child(x, n)) && Projectable(env, o.shape[n], Child(x, n), depth + 1))
  }

  /** Dot-free names are told apart by what follows them. */
  lemma {:induction false} NamesApart(n: Bytes, m: Bytes, rest: Bytes)
    requires DOT !in n && DOT !in m
    requires rest == [] || rest[0] == DOT
    requires m == n + rest || m + [DOT] <= n + rest
    ensures n == m
  {
    assert n == [] ==> n + rest == rest;
    assert m != [] ==> (m + [DOT])[0] == m[0] && m[0] in m;
    if n != [] && m != [] {
      assert (n + rest)[0] == n[0];
      assert m[0] == n[0];
      assert (n + rest)[1..] == n[1..] + rest;
      assert (m + [DOT])[1..] == m[1..] + [DOT];
      if m + [DOT] <= n + rest {
        assert (m + [DOT])[1..] <= (n + rest)[1..];
      }
      NamesApart(n[1..], m[1..], rest);
      assert n == [n[0]] + n[1..] && m == [m[0]] + m[1..];
    }
  }

  /** Writing one field never touches the entries of a sibling field. */
  lemma SiblingApart(base: Bytes, n: Bytes, m: Bytes, rel: seq<Bytes>)
    requires DOT !in n && DOT !in m && n != m
    requires n != [] && m != [] && (base + n)[0] != DOLLAR && (base + m)[0] != DOLLAR
    ensures var p := base + n + Dotted(rel);
      !Touches(base + m, p) && !Touches(base + m, EqualityEntry(p))
  {
    var rest := Dotted(rel);
    var p, q := base + n + rest, base + m;
    assert p == base + (n + rest);
    if q == p { Cancel(base, m, n + rest); NamesApart(n, m, rest); }
    if q + [DOT] <= p {
      assert q + [DOT] == base + (m + [DOT]);
      CancelPrefix(base, m + [DOT], n + rest);
      NamesApart(n, m, rest);
    }
    var ep, eq := EqualityEntry(p), EqualityEntry(q);
    assert p[0] == (base + n)[0] && q[0] == (base + m)[0];
    assert ep[0] == DOLLAR && eq[0] == DOLLAR && (q + [DOT])[0] == q[0] && (eq + [DOT])[0] == DOLLAR;
    if eq == ep { Cancel(EQ_PREFIX, q, p); }
    if eq + [DOT] <= ep {
      assert eq + [DOT] == EQ_PREFIX + (q + [DOT]);
      CancelPrefix(EQ_PREFIX, q + [DOT], p);
    }
  }

  lemma Cancel(a: Bytes, b: Bytes, c: Bytes)
    requires a + b == a + c
    ensures b == c
  {
    assert b == (a + b)[|a|..] == (a + c)[|a|..] == c;
  }

  lemma CancelPrefix(a: Bytes, b: Bytes, c: Bytes)
    requires a + b <= a + c
    ensures b <= c
  {
    assert b == (a + b)[|a|..];
    assert c == (a + c)[|a|..];
    assert (a + c)[..|a + b|] == a + b;
    assert c[..|b|] == b;
  }

  lemma EntryKept(env: Env, was: map<Bytes, Bytes>, now: map<Bytes, Bytes>, base: Bytes, n: Bytes, m: Bytes,
                  v: Validator, x: Option<Wire>)
    requires AllEntries(env, was, base + n, v, x) && SameOutside(was, now, base + m)
    requires DOT !in n && DOT !in m && n != m
    requires n != [] && m != [] && (base + n)[0] != DOLLAR && (base + m)[0] != DOLLAR
    ensures AllEntries(env, now, base + n, v, x)
  {
    SiblingApart(base, n, m, []);
    assert base + n + Dotted([]) == base + n;
    forall rel: seq<Bytes> | rel != [] && Resolve(v, rel).Some?
      ensures Entry(env, now, base + n + Dotted(rel), Resolve(v, rel).value, Walk(x, rel))
    {
      SiblingApart(base, n, m, rel);
    }
  }

  lemma {:induction false} UnwrappedResolve(v: Validator, rel: seq<Bytes>)
    requires rel != []
    ensures Resolve(v, rel) == Resolve(Unwrapped(v), rel)
    ensures Addressable(v) ==> Addressable(Unwrapped(v))
  {
    if v.VOptional? || v.VDefaulted? { UnwrappedResolve(v.inner, rel); }
  }

  lemma NothingNested(env: Env, out: map<Bytes, Bytes>, prefix: Bytes, v: Validator, x: Option<Wire>)
    requires !Unwrapped(v).VObject?
    ensures NestedEntries(env, out, prefix, v, x)
  {
    forall rel: seq<Bytes> | rel != [] ensures Resolve(v, rel).None? { UnwrappedResolve(v, rel); }
  }

  lemma ChildEntry(env: Env, out: map<Bytes, Bytes>, prefix: Bytes, v: Validator, x: Option<Wire>, rel: seq<Bytes>)
    requires rel != [] && Resolve(v, rel).Some? && Unwrapped(v).VObject?
    requires rel[0] in Unwrapped(v).shape
    requires AllEntries(env, out, prefix + [DOT] + rel[0], Unwrapped(v).shape[rel[0]], Child(x, rel[0]))
    ensures Entry(env, out, prefix + Dotted(rel), Resolve(v, rel).value, Walk(x, rel))
  {
    var path, rest, child := prefix + [DOT] + rel[0], rel[1..], Unwrapped(v).shape[rel[0]];
    assert prefix + Dotted(rel) == prefix + [DOT] + rel[0] + Dotted(rel[1..]);
    var y := Child(x, rel[0]);
    assert Walk(x, rel) == Walk(y, rest);
    if rest == [] {
      assert path + Dotted(rest) == path;
      assert Entry(env, out, path, child, y);
    } else {
      assert Entry(env, out, path + Dotted(rest), Resolve(child, rest).value, Walk(y, rest));
    }
  }

  /** The entries of the children are the nested entries of the parent. */
  lemma ChildrenAreNested(env: Env, out: map<Bytes, Bytes>, prefix: Bytes, v: Validator, x: Option<Wire>)
    requires Unwrapped(v).VObject?
    requires forall n | n in Unwrapped(v).shape ::
      AllEntries(env, out, prefix + [DOT] + n, Unwrapped(v).shape[n], Child(x, n))
    ensures NestedEntries(env, out, prefix, v, x)
  {
    forall rel: seq<Bytes> | rel != [] && Resolve(v, rel).Some?
      ensures Entry(env, out, prefix + Dotted(rel), Resolve(v, rel).value, Walk(x, rel))
    {
      UnwrappedResolve(v, rel);
      ChildEntry(env, out, prefix, v, x, rel);
    }
  }

  lemma TouchingBelow(prefix: Bytes, n: Bytes, k: Bytes)
    requires Touches(prefix + [DOT] + n, k)
    ensures Below(prefix, k)
  {
    var path := prefix + [DOT] + n;
    assert EqualityEntry(path) == EqualityEntry(prefix) + [DOT] + n;
    if k == path || k == EqualityEntry(path) {
    } else if path + [DOT] <= k {
      assert prefix + [DOT] <= path;
    } else {
      assert EqualityEntry(prefix) + [DOT] <= EqualityEntry(path);
    }
  }

  /** Fills the projection of one document, entry by entry. */
  class Projector {
    const env: Env
    var out: map<Bytes, Bytes>

    constructor (env: Env)
      ensures this.env == env && out == map[]
    {
      this.env := env;
      out := map[];
    }

    /** Writes both entries of one path. */
    method AppendOrderData(path: Bytes, v: Validator, x: Option<Wire>) returns (ok: bool)
      modifies this
      ensures ok <==> HasKeys(env, v, x)
      ensures ok ==> Entry(env, out, path, v, x)
      ensures forall k | k != path && k != EqualityEntry(path) ::
        (k in out <==> k in old(out)) && (k in out ==> out[k] == old(out[k]))
    {
      var key, equality := OrderKey(env, v, x), GenericKey(env, x);
      ok := key.Some? && equality.Some?;
      if ok {
        out := out[path := key.value];
        out := out[EqualityEntry(path) := equality.value];
        assert |EqualityEntry(path)| == |path| + 4;
      }
    }

    /** Writes a path and everything below it. */
    method AppendPath(path: Bytes, v: Validator, x: Option<Wire>, depth: nat) returns (ok: bool)
      requires Addressable(v) && path != [] && path[0] != DOLLAR
      modifies this
      decreases v, 2
      ensures SameOutside(old(out), out, path)
      ensures ok <==> HasKeys(env, v, x) && Projectable(env, v, x, depth)
      ensures ok ==> AllEntries(env, out, path, v, x)
    {
      ok := AppendOrderData(path, v, x);
      if ok {
        label between:
        ok := AppendNestedOrderData(path, v, x, depth);
        if ok { OwnEntryKept(env, old@between(out), out, path, v, x); }
      }
    }

    /** Writes the entries of every path below a constrained object. */
    method AppendNestedOrderData(prefix: Bytes, v: Validator, x: Option<Wire>, depth: nat) returns (ok: bool)
      requires Addressable(v) && prefix != [] && prefix[0] != DOLLAR
      modifies this
      decreases v, 1
      ensures SameNotBelow(old(out), out, prefix)
      ensures ok <==> Projectable(env, v, x, depth)
      ensures ok ==> NestedEntries(env, out, prefix, v, x)
    {
      if depth > MAX_DEPTH { return false; }
      var o := v;
      while o.VOptional? || o.VDefaulted?
        invariant Unwrapped(o) == Unwrapped(v) && Addressable(o)
        invariant o == v || o < v
        decreases o
      {
        o := o.inner;
      }
      if !o.VObject? {
        NothingNested(env, out, prefix, v, x);
        return true;
      }
      if x.Some? && !x.value.WObj? { return false; }
      ok := AppendFields(prefix, o, x, depth);
      if ok { ChildrenAreNested(env, out, prefix, v, x); }
    }

    method AppendFields(prefix: Bytes, o: Validator, x: Option<Wire>, depth: nat) returns (ok: bool)
      requires o.VObject? && Addressable(o) && prefix != [] && prefix[0] != DOLLAR && (x.Some? ==> x.value.WObj?)
      modifies this
      decreases o, 0
      ensures SameNotBelow(old(out), out, prefix)
      ensures ok <==> forall n | n in o.shape :: HasKeys(env, o.shape[n], Child(x, n)) && Projectable(env, o.shape[n], Child(x, n), depth + 1)
      ensures ok ==> forall n | n in o.shape :: AllEntries(env, out, prefix + [DOT] + n, o.shape[n], Child(x, n))
    {
      var todo := o.shape.Keys;
      while todo != {}
        invariant todo <= o.shape.Keys
        invariant SameNotBelow(old(out), out, prefix)
        invariant forall n | n in o.shape && n !in todo ::
          HasKeys(env, o.shape[n], Child(x, n)) && Projectable(env, o.shape[n], Child(x, n), depth + 1)
        invariant forall n | n in o.shape && n !in todo :: AllEntries(env, out, prefix + [DOT] + n, o.shape[n], Child(x, n))
      {
        var name :| name in todo;
        label before:
        ok := AppendPath(prefix + [DOT] + name, o.shape[name], Child(x, name), depth + 1);
        FieldFrame(prefix, name, old(out), old@before(out), out);
        if !ok { return; }
        SiblingsKept(env, old@before(out), out, prefix + [DOT], o.shape, todo, name, x);
        todo := todo - {name};
      }
      return true;
    }

    /** The projection of a whole document: every declared path finds the keys of its value. */
    method OrderDataWithID(fields: map<Bytes, Validator>, document: map<Bytes, Wire>) returns (ok: bool)
      requires AddressableFields(fields) && out == map[]
      modifies this
      ensures ok <==> forall n | n in fields :: var x := Child(Some(WObj(document)), n);
        HasKeys(env, fields[n], x) && Projectable(env, fields[n], x, 0)
      ensures ok ==> forall path | FieldValidator(fields, path).Some? ::
        Entry(env, out, path, FieldValidator(fields, path).value, Walk(Some(WObj(document)), Split(path)))
    {
      var doc := Some(WObj(document));
      var todo := fields.Keys;
      while todo != {}
        invariant todo <= fields.Keys
        invariant forall n | n in fields && n !in todo ::
          HasKeys(env, fields[n], Child(doc, n)) && Projectable(env, fields[n], Child(doc, n), 0)
        invariant forall n | n in fields && n !in todo :: AllEntries(env, out, [] + n, fields[n], Child(doc, n))
      {
        var name :| name in todo;
        label before:
        assert [] + name == name;
        ok := AppendPath(name, fields[name], Child(doc, name), 0);
        if !ok { return; }
        SiblingsKept(env, old@before(out), out, [], fields, todo, name, doc);
        todo := todo - {name};
      }
      forall path | FieldValidator(fields, path).Some?
        ensures Entry(env, out, path, FieldValidator(fields, path).value, Walk(doc, Split(path)))
      {
        FieldEntry(env, out, fields, doc, path);
      }
      return true;
    }
  }

  /** Writing one more field keeps the fields written so far. */
  lemma SiblingsKept(env: Env, was: map<Bytes, Bytes>, now: map<Bytes, Bytes>, base: Bytes,
                     shape: map<Bytes, Validator>, todo: set<Bytes>, name: Bytes, x: Option<Wire>)
    requires forall n | n in shape :: SafePathSegment(n)
    requires name in todo && todo <= shape.Keys && (base == [] || base[0] != DOLLAR)
    requires forall n | n in shape && n !in todo :: AllEntries(env, was, base + n, shape[n], Child(x, n))
    requires SameOutside(was, now, base + name) && AllEntries(env, now, base + name, shape[name], Child(x, name))
    ensures forall n | n in shape && n !in todo - {name} :: AllEntries(env, now, base + n, shape[n], Child(x, n))
  {
    forall n | n in shape && n !in todo - {name}
      ensures AllEntries(env, now, base + n, shape[n], Child(x, n))
    {
      if n != name { EntryKept(env, was, now, base, n, name, shape[n], Child(x, n)); }
    }
  }

  lemma FieldFrame(prefix: Bytes, name: Bytes, first: map<Bytes, Bytes>, was: map<Bytes, Bytes>, now: map<Bytes, Bytes>)
    requires SameNotBelow(first, was, prefix) && SameOutside(was, now, prefix + [DOT] + name)
    ensures SameNotBelow(first, now, prefix)
  {
    forall k | !Below(prefix, k) ensures !Touches(prefix + [DOT] + name, k) {
      if Touches(prefix + [DOT] + name, k) { TouchingBelow(prefix, name, k); }
    }
  }

  lemma NotBelowItself(path: Bytes)
    requires path != [] && path[0] != DOLLAR
    ensures !Below(path, path) && !Below(path, EqualityEntry(path))
  {
    assert EqualityEntry(path)[0] == DOLLAR;
  }

  lemma OwnEntryKept(env: Env, was: map<Bytes, Bytes>, now: map<Bytes, Bytes>, path: Bytes, v: Validator, x: Option<Wire>)
    requires Entry(env, was, path, v, x) && SameNotBelow(was, now, path) && NestedEntries(env, now, path, v, x)
    requires path != [] && path[0] != DOLLAR
    ensures AllEntries(env, now, path, v, x)
  {
    NotBelowItself(path);
  }

  lemma FieldEntry(env: Env, out: map<Bytes, Bytes>, fields: map<Bytes, Validator>, doc: Option<Wire>, path: Bytes)
    requires FieldValidator(fields, path).Some?
    requires forall n | n in fields :: AllEntries(env, out, [] + n, fields[n], Child(doc, n))
    ensures Entry(env, out, path, FieldValidator(fields, path).value, Walk(doc, Split(path)))
  {
    var parts := Split(path);
    JoinUndoesSplit(path);
    var n, rel := parts[0], parts[1..];
    assert [] + n == n;
    assert AllEntries(env, out, n, fields[n], Child(doc, n));
    if rel == [] { assert n + Dotted(rel) == n; }
    assert Walk(doc, parts) == Walk(Child(doc, n), rel);
  }

  /** No two addressable paths share an entry. */
  lemma EntriesApart(fields: map<Bytes, Validator>, p: Bytes, q: Bytes)
    requires FieldValidator(fields, p).Some? && FieldValidator(fields, q).Some?
    ensures p != EqualityEntry(q)
    ensures EqualityEntry(p) == EqualityEntry(q) ==> p == q
  {
    JoinUndoesSplit(p);
    var name := Split(p)[0];
    assert p[0] == name[0] != DOLLAR;
    assert EqualityEntry(q)[0] == DOLLAR;
    if EqualityEntry(p) == EqualityEntry(q) { Cancel(EQ_PREFIX, p, q); }
  }
}
