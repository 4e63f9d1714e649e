/** Cursors are bound to the arguments of the first page: a continuation differs from it only by the
    cursor in its pagination options, and redacting that one property gives the first page's arguments back. */
module CursorBinding {
  import opened ByteStrings
  import opened WireValues
  import P = Pagination

  /** Object keys and decimal array positions from the arguments down to an object. */
  type Path = seq<Bytes>

  const CURSOR: Bytes := [99, 117, 114, 115, 111, 114]  // "cursor"

  // ----- decimal positions

  function Itoa(n: nat): Bytes {
    if n < 10 then [48 + n] else Itoa(n / 10) + [48 + n % 10]
  }

  predicate Digits(s: Bytes) {
    s != [] && forall i | 0 <= i < |s| :: 48 <= s[i] <= 57
  }

  function Decimal(s: Bytes): nat
    requires s == [] || Digits(s)
  {
    if s == [] then 0
    else
      var d: int := s[|s| - 1];
      10 * Decimal(s[..|s| - 1]) + (d - 48)
  }

  /** A signed decimal number. The source also fails beyond the int64 range, where no array has an element. */
  function Atoi(s: Bytes): Option<int> {
    if Digits(s) then Some(Decimal(s))
    else if s != [] && s[0] == 43 && Digits(s[1..]) then Some(Decimal(s[1..]))
    else if s != [] && s[0] == 45 && Digits(s[1..]) then
      var n: int := Decimal(s[1..]);
      Some(-n)
    else None
  }

  lemma {:induction false} AtoiOfItoa(n: nat)
    ensures Digits(Itoa(n)) && Atoi(Itoa(n)) == Some(n)
  {
    if n >= 10 {
      AtoiOfItoa(n / 10);
      assert Itoa(n)[..|Itoa(n)| - 1] == Itoa(n / 10);
    } else {
      assert Decimal([]) == 0 && Itoa(n)[..0] == [];
    }
  }

  // ----- reaching into arguments

  /** The value one step down. */
  function Child(v: Wire, key: Bytes): Option<Wire> {
    if v.WObj? && key in v.fields then Some(v.fields[key])
    else if v.WArr? && Atoi(key).Some? && 0 <= Atoi(key).value < |v.items| then Some(v.items[Atoi(key).value])
    else None
  }

  function ReplaceChild(v: Wire, key: Bytes, child: Wire): Wire
    requires Child(v, key).Some?
  {
    if v.WObj? then WObj(v.fields[key := child]) else WArr(v.items[Atoi(key).value := child])
  }

  /** The object a path leads to. */
  function ObjectAt(v: Wire, path: Path): Option<map<Bytes, Wire>>
    decreases |path|
  {
    if path == [] then (if v.WObj? then Some(v.fields) else None)
    else match Child(v, path[0])
      case None => None
      case Some(c) => ObjectAt(c, path[1..])
  }

  /** The cursor property of the object a path leads to. */
  function CursorAt(v: Wire, path: Path): Option<Wire>
    requires ObjectAt(v, path).Some?
  {
    var o := ObjectAt(v, path).value;
    if CURSOR in o then Some(o[CURSOR]) else None
  }

  function WithCursor(o: map<Bytes, Wire>, cursor: Option<Wire>): map<Bytes, Wire> {
    match cursor
    case None => o - {CURSOR}
    case Some(c) => o[CURSOR := c]
  }

  /** The arguments with the cursor property of one object set or removed, everything else unchanged. */
  function PutCursor(v: Wire, path: Path, cursor: Option<Wire>): Wire
    requires ObjectAt(v, path).Some?
    decreases |path|
  {
    if path == [] then WObj(WithCursor(v.fields, cursor))
    else ReplaceChild(v, path[0], PutCursor(Child(v, path[0]).value, path[1..], cursor))
  }

  lemma ReplacedChild(v: Wire, key: Bytes, child: Wire, other: Wire)
    requires Child(v, key).Some?
    ensures Child(ReplaceChild(v, key, child), key) == Some(child)
    ensures ReplaceChild(ReplaceChild(v, key, child), key, other) == ReplaceChild(v, key, other)
    ensures ReplaceChild(v, key, Child(v, key).value) == v
  {
    if v.WObj? {
      assert v.fields[key := child][key := other] == v.fields[key := other];
      assert v.fields[key := v.fields[key]] == v.fields;
    } else {
      var i := Atoi(key).value;
      assert v.items[i := child][i := other] == v.items[i := other];
      assert v.items[i := v.items[i]] == v.items;
    }
  }

  lemma {:induction false} PutThenRead(v: Wire, path: Path, cursor: Option<Wire>)
    requires ObjectAt(v, path).Some?
    ensures ObjectAt(PutCursor(v, path, cursor), path) == Some(WithCursor(ObjectAt(v, path).value, cursor))
    ensures CursorAt(PutCursor(v, path, cursor), path) == cursor
    decreases |path|
  {
    if path != [] {
      var c := Child(v, path[0]).value;
      PutThenRead(c, path[1..], cursor);
      ReplacedChild(v, path[0], PutCursor(c, path[1..], cursor), c);
    }
  }

  lemma {:induction false} PutTwice(v: Wire, path: Path, first: Option<Wire>, second: Option<Wire>)
    requires ObjectAt(v, path).Some?
    ensures ObjectAt(PutCursor(v, path, first), path).Some?
    ensures PutCursor(PutCursor(v, path, first), path, second) == PutCursor(v, path, second)
    decreases |path|
  {
    PutThenRead(v, path, first);
    if path == [] {
      assert WithCursor(WithCursor(v.fields, first), second) == WithCursor(v.fields, second);
    } else {
      var c := Child(v, path[0]).value;
      PutTwice(c, path[1..], first, second);
      ReplacedChild(v, path[0], PutCursor(c, path[1..], first), PutCursor(c, path[1..], second));
    }
  }

  lemma {:induction false} PutOwn(v: Wire, path: Path)
    requires ObjectAt(v, path).Some?
    ensures PutCursor(v, path, CursorAt(v, path)) == v
    decreases |path|
  {
    if path == [] {
      assert WithCursor(v.fields, CursorAt(v, path)) == v.fields;
    } else {
      var c := Child(v, path[0]).value;
      PutOwn(c, path[1..]);
      ReplacedChild(v, path[0], c, c);
    }
  }

  // ----- redaction

  /** Remove or null the cursor at one path, if it is this token. None when nothing changes. */
  function RedactArgumentCursor(v: Wire, path: Path, token: Bytes, omit: bool): Option<Wire>
    decreases |path|
  {
    if path == [] then
      if v.WObj? && CURSOR in v.fields && v.fields[CURSOR] == WStr(token) then
        var rest := map k | k in v.fields && k != CURSOR :: v.fields[k];
        Some(WObj(if omit then rest else rest[CURSOR := WNull]))
      else None
    else if v.WObj? then
      if path[0] !in v.fields then None
      else match RedactArgumentCursor(v.fields[path[0]], path[1..], token, omit)
        case None => None
        case Some(c) => Some(WObj(v.fields[path[0] := c]))
    else if v.WArr? then
      var index := Atoi(path[0]);
      if index.None? || index.value < 0 || index.value >= |v.items| then None
      else match RedactArgumentCursor(v.items[index.value], path[1..], token, omit)
        case None => None
        case Some(c) => Some(WArr(v.items[index.value := c]))
    else None
  }

  /** Redaction changes one property, and only where it holds the token. */
  lemma {:induction false} RedactionIsLocal(v: Wire, path: Path, token: Bytes, omit: bool)
    ensures RedactArgumentCursor(v, path, token, omit) ==
      if ObjectAt(v, path).Some? && CursorAt(v, path) == Some(WStr(token))
      then Some(PutCursor(v, path, if omit then None else Some(WNull))) else None
    decreases |path|
  {
    if path == [] {
      if v.WObj? {
        assert (map k | k in v.fields && k != CURSOR :: v.fields[k]) == v.fields - {CURSOR};
        assert (v.fields - {CURSOR})[CURSOR := WNull] == v.fields[CURSOR := WNull];
      }
    } else {
      var c := Child(v, path[0]);
      if c.Some? { RedactionIsLocal(c.value, path[1..], token, omit); }
    }
  }

  /** A first page's cursor option is null or absent; the next request puts the token there. One of the
      two redactions gives the first page's arguments back. */
  lemma RedactionRestoresFirstPage(first: Wire, path: Path, token: Bytes)
    requires ObjectAt(first, path).Some? && CursorAt(first, path) in {None, Some(WNull)}
    ensures var next := PutCursor(first, path, Some(WStr(token)));
      RedactArgumentCursor(next, path, token, CursorAt(first, path).None?) == Some(first)
  {
    var next := PutCursor(first, path, Some(WStr(token)));
    PutThenRead(first, path, Some(WStr(token)));
    PutTwice(first, path, Some(WStr(token)), CursorAt(first, path));
    PutOwn(first, path);
    RedactionIsLocal(next, path, token, CursorAt(first, path).None?);
  }

  // ----- finding the options object by its token

  /** Paths of the objects, at most MAX_DEPTH levels down, whose cursor property is the token. The value of
      a property named cursor is not searched. */
  function Holders(v: Wire, token: Bytes, depth: nat): set<Path>
    decreases v
  {
    if depth > MAX_DEPTH then {}
    else match v
      case WObj(fields) => OwnHolder(v, token)
        + set k, p | k in fields && k != CURSOR && p in Holders(fields[k], token, depth + 1) :: [k] + p
      case WArr(items) =>
        set i, p | 0 <= i < |items| && p in Holders(items[i], token, depth + 1) :: [Itoa(i)] + p
      case _ => {}
  }

  function OwnHolder(v: Wire, token: Bytes): set<Path> {
    if v.WObj? && CURSOR in v.fields && v.fields[CURSOR] == WStr(token) then {[]} else {}
  }

  function Under(path: Path, relative: set<Path>): set<Path> {
    set p | p in relative :: path + p
  }

  /** An object's own path, and the paths below some of its keys. */
  function FieldHolders(v: Wire, keys: set<Bytes>, token: Bytes, depth: nat): set<Path>
    requires v.WObj? && keys <= v.fields.Keys
  {
    OwnHolder(v, token) + set k, p | k in keys && p in Holders(v.fields[k], token, depth) :: [k] + p
  }

  /** The paths below the first n elements of an array. */
  function ItemHolders(items: seq<Wire>, n: nat, token: Bytes, depth: nat): set<Path>
    requires n <= |items|
  {
    set i, p | 0 <= i < n && p in Holders(items[i], token, depth) :: [Itoa(i)] + p
  }

  lemma UnderSplit(path: Path, a: set<Path>, k: Bytes, below: set<Path>)
    ensures Under(path, a + Under([k], below)) == Under(path, a) + Under(path + [k], below)
  {
    assert forall p | p in below :: path + ([k] + p) == path + [k] + p;
    forall q | q in Under(path + [k], below) ensures q in Under(path, a + Under([k], below)) {
      var p :| p in below && q == path + [k] + p;
      assert [k] + p in Under([k], below);
    }
  }

  lemma FieldStep(path: Path, v: Wire, keys: set<Bytes>, k: Bytes, token: Bytes, depth: nat)
    requires v.WObj? && keys <= v.fields.Keys && k in v.fields
    ensures Under(path, FieldHolders(v, keys + {k}, token, depth))
      == Under(path, FieldHolders(v, keys, token, depth)) + Under(path + [k], Holders(v.fields[k], token, depth))
  {
    var below := Holders(v.fields[k], token, depth);
    assert FieldHolders(v, keys + {k}, token, depth) == FieldHolders(v, keys, token, depth) + Under([k], below);
    UnderSplit(path, FieldHolders(v, keys, token, depth), k, below);
  }

  lemma ItemHoldersStep(path: Path, items: seq<Wire>, n: nat, token: Bytes, depth: nat)
    requires n < |items|
    ensures Under(path, ItemHolders(items, n + 1, token, depth))
      == Under(path, ItemHolders(items, n, token, depth)) + Under(path + [Itoa(n)], Holders(items[n], token, depth))
  {
    var below := Holders(items[n], token, depth);
    assert ItemHolders(items, n + 1, token, depth) == ItemHolders(items, n, token, depth) + Under([Itoa(n)], below);
    UnderSplit(path, ItemHolders(items, n, token, depth), Itoa(n), below);
  }

  predicate TwoPaths(found: set<Path>) {
    exists a, b | a in found && b in found :: a != b
  }

  /** The search for the one object that holds the token. */
  class CursorSearch {
    const token: Bytes
    var candidate: Path
    var count: nat

    constructor (token: Bytes)
      ensures this.token == token && count == 0 && Tally({})
    {
      this.token, candidate, count := token, [], 0;
    }

    /** What the counter says about the holders met so far. */
    ghost predicate Tally(found: set<Path>)
      reads this
    {
      && (count == 0 ==> found == {})
      && (count == 1 ==> found == {candidate})
      && (count > 1 ==> TwoPaths(found))
    }

    method Walk(current: Wire, path: Path, depth: nat, ghost found: set<Path>)
      requires Tally(found) && forall p | p in found :: !(path <= p)
      modifies this
      ensures Tally(found + Under(path, Holders(current, token, depth)))
      decreases current, 2
    {
      if depth > MAX_DEPTH || count > 1 {
        MoreThanTwo(found, Under(path, Holders(current, token, depth)));
        return;
      }
      if current.WObj? {
        if CURSOR in current.fields && current.fields[CURSOR] == WStr(token) {
          candidate := path;
          count := count + 1;
          if count > 1 { TwoDistinct(found, path); }
        }
        NoKeysYet(path, current, token, depth + 1);
        WalkFields(current, path, depth, found);
      } else if current.WArr? {
        WalkItems(current, path, depth, found);
      }
    }

    /** The holders met once some keys of an object have been walked. */
    ghost predicate Walked(current: Wire, done: set<Bytes>, path: Path, depth: nat, found: set<Path>)
      reads this
    {
      var ok := current.WObj? && done <= current.fields.Keys && Tally(found + Under(path, FieldHolders(current, done, token, depth + 1)));
      ok
    }

    method WalkFields(current: Wire, path: Path, depth: nat, ghost found: set<Path>)
      requires depth <= MAX_DEPTH && Walked(current, {}, path, depth, found)
      requires forall p | p in found :: !(path <= p)
      modifies this
      ensures Tally(found + Under(path, Holders(current, token, depth)))
      decreases current, 1
    {
      var todo := current.fields.Keys - {CURSOR};
      ghost var all := todo;
      assert all - todo == {};
      while todo != {}
        invariant todo <= all && Walked(current, all - todo, path, depth, found)
        decreases |todo|
      {
        var key :| key in todo;
        WalkField(current, key, path, depth, found, all - todo);
        assert all - todo + {key} == all - (todo - {key});
        todo := todo - {key};
      }
      assert all - {} == all;
      AllWalked(current, path, depth, found);
    }

    lemma AllWalked(current: Wire, path: Path, depth: nat, found: set<Path>)
      requires depth <= MAX_DEPTH && current.WObj? && Walked(current, current.fields.Keys - {CURSOR}, path, depth, found)
      ensures Tally(found + Under(path, Holders(current, token, depth)))
    {
      AllFields(current, current.fields.Keys - {CURSOR}, token, depth);
    }

    method WalkField(current: Wire, key: Bytes, path: Path, depth: nat, ghost found: set<Path>, ghost done: set<Bytes>)
      requires current.WObj? && key in current.fields && key !in done && Walked(current, done, path, depth, found)
      requires forall p | p in found :: !(path <= p)
      modifies this
      ensures Walked(current, done + {key}, path, depth, found)
      decreases current, 0
    {
      ghost var before := found + Under(path, FieldHolders(current, done, token, depth + 1));
      NextField(found, path, current, done, key, token, depth + 1);
      Walk(current.fields[key], path + [key], depth + 1, before);
    }

    method WalkItems(current: Wire, path: Path, depth: nat, ghost found: set<Path>)
      requires current.WArr? && depth <= MAX_DEPTH
      requires Tally(found) && forall p | p in found :: !(path <= p)
      modifies this
      ensures Tally(found + Under(path, Holders(current, token, depth)))
      decreases current, 1
    {
      var items := current.items;
      assert found + Under(path, ItemHolders(items, 0, token, depth + 1)) == found;
      for i := 0 to |items|
        invariant Tally(found + Under(path, ItemHolders(items, i, token, depth + 1)))
      {
        ghost var before := found + Under(path, ItemHolders(items, i, token, depth + 1));
        ItemHoldersStep(path, items, i, token, depth + 1);
        ItemApart(found, path, items, i, token, depth + 1);
        Walk(items[i], path + [Itoa(i)], depth + 1, before);
        assert before + Under(path + [Itoa(i)], Holders(items[i], token, depth + 1))
          == found + Under(path, ItemHolders(items, i + 1, token, depth + 1));
      }
      assert ItemHolders(items, |items|, token, depth + 1) == Holders(current, token, depth);
    }
  }

  lemma MoreThanTwo(found: set<Path>, more: set<Path>)
    ensures TwoPaths(found) ==> TwoPaths(found + more)
    ensures more == {} ==> found + more == found
  {
    if TwoPaths(found) {
      var a, b :| a in found && b in found && a != b;
      assert a in found + more && b in found + more;
    }
  }

  lemma NoKeysYet(path: Path, v: Wire, token: Bytes, depth: nat)
    requires v.WObj?
    ensures Under(path, FieldHolders(v, {}, token, depth)) == if OwnHolder(v, token) == {} then {} else {path}
  {
    assert path + [] == path;
    assert FieldHolders(v, {}, token, depth) == OwnHolder(v, token);
  }

  lemma AllFields(v: Wire, keys: set<Bytes>, token: Bytes, depth: nat)
    requires v.WObj? && depth <= MAX_DEPTH && keys == v.fields.Keys - {CURSOR}
    ensures FieldHolders(v, keys, token, depth + 1) == Holders(v, token, depth)
  {
  }

  lemma FieldApart(path: Path, v: Wire, done: set<Bytes>, key: Bytes, token: Bytes, depth: nat, p: Path)
    requires v.WObj? && done <= v.fields.Keys && key !in done
    requires p in Under(path, FieldHolders(v, done, token, depth))
    ensures !(path + [key] <= p)
  {
    var r :| r in FieldHolders(v, done, token, depth) && p == path + r;
    if r != [] {
      assert r[0] in done && p[|path|] == r[0];
      assert (path + [key])[|path|] == key;
    }
  }

  lemma NextField(found: set<Path>, path: Path, v: Wire, done: set<Bytes>, key: Bytes, token: Bytes, depth: nat)
    requires v.WObj? && done <= v.fields.Keys && key in v.fields && key !in done
    requires forall p | p in found :: !(path <= p)
    ensures forall p | p in found + Under(path, FieldHolders(v, done, token, depth)) :: !(path + [key] <= p)
    ensures found + Under(path, FieldHolders(v, done, token, depth)) + Under(path + [key], Holders(v.fields[key], token, depth))
      == found + Under(path, FieldHolders(v, done + {key}, token, depth))
  {
    var before := Under(path, FieldHolders(v, done, token, depth));
    forall p | p in found + before ensures !(path + [key] <= p) {
      if p in found { assert path <= path + [key]; } else { FieldApart(path, v, done, key, token, depth, p); }
    }
    FieldStep(path, v, done, key, token, depth);
  }

  lemma ItemApart(found: set<Path>, path: Path, items: seq<Wire>, n: nat, token: Bytes, depth: nat)
    requires n < |items|
    requires forall p | p in found :: !(path <= p)
    ensures forall p | p in found + Under(path, ItemHolders(items, n, token, depth)) :: !(path + [Itoa(n)] <= p)
  {
    ItemsApart(n);
    forall p | p in found + Under(path, ItemHolders(items, n, token, depth)) ensures !(path + [Itoa(n)] <= p) {
      if p in found {
        assert path <= path + [Itoa(n)];
      } else {
        var r :| r in ItemHolders(items, n, token, depth) && p == path + r;
        assert p[|path|] == r[0] && (path + [Itoa(n)])[|path|] == Itoa(n);
      }
    }
  }

  lemma TwoDistinct(found: set<Path>, path: Path)
    requires found != {} && path !in found
    ensures TwoPaths(found + {path})
  {
    var other :| other in found;
    assert other in found + {path} && path in found + {path};
  }

  lemma ItemsApart(i: nat)
    ensures forall j: nat | j != i :: Itoa(j) != Itoa(i)
  {
    AtoiOfItoa(i);
    forall j: nat | j != i ensures Itoa(j) != Itoa(i) { AtoiOfItoa(j); }
  }

  /** The fallback names a path exactly when one object holds the token, and then names that object. */
  method UniqueArgumentCursorPath(v: Wire, token: Bytes) returns (r: Option<Path>)
    ensures r.Some? <==> exists p :: Holders(v, token, 0) == {p}
    ensures r.Some? ==> Holders(v, token, 0) == {r.value}
  {
    var search := new CursorSearch(token);
    search.Walk(v, [], 0, {});
    ghost var holders := Holders(v, token, 0);
    assert {} + Under([], holders) == holders by {
      assert forall p: Path :: [] + p == p;
    }
    if search.count == 1 { r := Some(search.candidate); } else { r := None; }
    if search.count > 1 {
      ghost var a, b :| a in holders && b in holders && a != b;
    }
  }

  /** A path whose steps the search takes: no step through a property named cursor, array positions in
      their decimal spelling, and no deeper than the search goes. */
  predicate Searchable(v: Wire, path: Path, depth: nat)
    decreases |path|
  {
    depth + |path| <= MAX_DEPTH &&
    (path == [] ||
      (&& Child(v, path[0]).Some?
       && (if v.WObj? then path[0] != CURSOR else path[0] == Itoa(Atoi(path[0]).value))
       && Searchable(Child(v, path[0]).value, path[1..], depth + 1)))
  }

  lemma HolderBelow(path: Path, s: set<Path>)
    ensures Under(path, s) == {} ==> s == {}
  {
    if s != {} {
      var p :| p in s;
      assert path + p in Under(path, s);
    }
  }

  /** When nothing holds the token, nothing below does. */
  lemma NothingBelow(v: Wire, key: Bytes, token: Bytes, depth: nat)
    requires Holders(v, token, depth) == {} && depth <= MAX_DEPTH && Child(v, key).Some?
    requires if v.WObj? then key != CURSOR else key == Itoa(Atoi(key).value)
    ensures Holders(Child(v, key).value, token, depth + 1) == {}
  {
    var below := Holders(Child(v, key).value, token, depth + 1);
    assert Under([key], below) <= Holders(v, token, depth);
    HolderBelow([key], below);
  }

  predicate OneLeads(v: Wire, path: Path, child: Wire, token: Bytes, depth: nat) {
    && path != [] && Searchable(v, path, depth) && Holders(child, token, depth + 1) == {path[1..]}
  }

  lemma FreshProperty(v: Wire, path: Path, child: Wire, token: Bytes, depth: nat)
    requires v.WObj? && OneLeads(v, path, child, token, depth) && OwnHolder(v, token) == {}
    requires forall k | k in v.fields && k != CURSOR :: Holders(v.fields[k], token, depth + 1) == {}
    ensures Holders(ReplaceChild(v, path[0], child), token, depth) == {path}
  {
    var next := ReplaceChild(v, path[0], child);
    assert OwnHolder(next, token) == {};
    assert [path[0]] + path[1..] == path && path in Holders(next, token, depth);
  }

  lemma FreshItem(v: Wire, path: Path, child: Wire, token: Bytes, depth: nat)
    requires v.WArr? && OneLeads(v, path, child, token, depth)
    requires forall j: nat | j < |v.items| :: Holders(v.items[j], token, depth + 1) == {}
    ensures Holders(ReplaceChild(v, path[0], child), token, depth) == {path}
  {
    var next := ReplaceChild(v, path[0], child);
    assert [path[0]] + path[1..] == path && path in Holders(next, token, depth);
  }

  /** A token put into one child of an object or array that held it nowhere. */
  lemma FreshBelow(v: Wire, path: Path, child: Wire, token: Bytes, depth: nat)
    requires OneLeads(v, path, child, token, depth) && Holders(v, token, depth) == {}
    ensures Holders(ReplaceChild(v, path[0], child), token, depth) == {path}
  {
    if v.WObj? {
      forall k | k in v.fields && k != CURSOR ensures Holders(v.fields[k], token, depth + 1) == {} {
        NothingBelow(v, k, token, depth);
      }
      FreshProperty(v, path, child, token, depth);
    } else {
      forall j: nat | j < |v.items| ensures Holders(v.items[j], token, depth + 1) == {} {
        AtoiOfItoa(j);
        NothingBelow(v, Itoa(j), token, depth);
      }
      FreshItem(v, path, child, token, depth);
    }
  }

  lemma FreshHere(v: Wire, token: Bytes, depth: nat)
    requires v.WObj? && Searchable(v, [], depth) && Holders(v, token, depth) == {}
    ensures Holders(PutCursor(v, [], Some(WStr(token))), token, depth) == {[]}
  {
    forall k | k in v.fields && k != CURSOR ensures Holders(v.fields[k], token, depth + 1) == {} {
      NothingBelow(v, k, token, depth);
    }
    assert OwnHolder(PutCursor(v, [], Some(WStr(token))), token) == {[]};
  }

  /** A token that no options object held before is found where it is put. */
  lemma {:induction false} FreshTokenFound(v: Wire, path: Path, token: Bytes, depth: nat)
    requires ObjectAt(v, path).Some? && Searchable(v, path, depth) && Holders(v, token, depth) == {}
    ensures Holders(PutCursor(v, path, Some(WStr(token))), token, depth) == {path}
    decreases |path|
  {
    if path == [] {
      FreshHere(v, token, depth);
    } else {
      var c := Child(v, path[0]).value;
      NothingBelow(v, path[0], token, depth);
      FreshTokenFound(c, path[1..], token, depth + 1);
      FreshBelow(v, path, PutCursor(c, path[1..], Some(WStr(token))), token, depth);
    }
  }

  // ----- binding a cursor to its query

  /** What a cursor token carries. */
  datatype Payload = Payload(version: nat, key: nat, hash: Bytes, tuple: seq<Bytes>, id: Bytes, mac: Bytes)

  const MAX_CURSOR_BYTES: nat := 16384
  const MAX_TUPLE_ITEMS: nat := 64
  const HASH_TEXT_BYTES: nat := 43

  const QUOTE: byte := 34

  function Quoted(s: Bytes): Bytes { [QUOTE] + s + [QUOTE] }

  function TupleText(tuple: seq<Bytes>): Bytes {
    if tuple == [] then []
    else if |tuple| == 1 then Quoted(tuple[0])
    else TupleText(tuple[..|tuple| - 1]) + [P.COMMA] + Quoted(tuple[|tuple| - 1])
  }

  const V: Bytes := [123, 34, 118, 34, 58]  // {"v":
  const K: Bytes := [44, 34, 107, 34, 58]  // ,"k":
  const H: Bytes := [44, 34, 104, 34, 58]  // ,"h":
  const T: Bytes := [44, 34, 116, 34, 58]  // ,"t":
  const I: Bytes := [44, 34, 105, 34, 58]  // ,"i":
  const M: Bytes := [44, 34, 109, 34, 58]  // ,"m":

  /** A payload's JSON. Hashes, keys, times and ids need no escapes. */
  function PayloadText(p: Payload): Bytes {
    V + Itoa(p.version) + K + Itoa(p.key) + H + Quoted(p.hash) + T + [P.OPEN] + TupleText(p.tuple) + [P.CLOSE]
    + I + Quoted(p.id) + M + Quoted(p.mac) + [125]  // }
  }

  function TupleBytes(tuple: seq<Bytes>): nat {
    if tuple == [] then 0
    else TupleBytes(tuple[..|tuple| - 1]) + (if |tuple| > 1 then 1 else 0) + |tuple[|tuple| - 1]| + 2
  }

  function PayloadBytes(p: Payload): nat {
    39 + |Itoa(p.version)| + |Itoa(p.key)| + |p.hash| + TupleBytes(p.tuple) + |p.id| + |p.mac|
  }

  lemma {:induction false} TupleBytesAreText(tuple: seq<Bytes>)
    ensures TupleBytes(tuple) == |TupleText(tuple)|
    decreases |tuple|
  {
    if |tuple| == 1 {
      assert TupleBytes(tuple[..0]) == 0;
    } else if tuple != [] {
      TupleBytesAreText(tuple[..|tuple| - 1]);
    }
  }

  /** The bytes counted against the limit are those of the payload's JSON. */
  lemma PayloadBytesAreText(p: Payload)
    ensures PayloadBytes(p) == |PayloadText(p)|
  {
    TupleBytesAreText(p.tuple);
  }

  /** The query's surroundings: canonical text of arguments, the hash of the whole plan as a function of
      the arguments' text, and what each token says if its text and its signature are right. */
  datatype Plan = Plan(text: Wire -> Bytes, digest: Bytes -> Bytes, payload: Bytes -> Option<Payload>) {
    ghost predicate Valid() {
      && (forall a, b :: text(a) == text(b) <==> Same(a, b))
      && (forall s, t :: digest(s) == digest(t) ==> s == t)
    }
  }

  predicate Decodable(p: Payload) {
    && PayloadBytes(p) <= MAX_CURSOR_BYTES
    && p.version == 1 && p.key >= 1 && |p.hash| == HASH_TEXT_BYTES && |p.id| == P.ID_BYTES
    && |p.tuple| <= MAX_TUPLE_ITEMS && |p.mac| == HASH_TEXT_BYTES
    && forall k | k in p.tuple :: 0 < |k| <= P.MAX_KEY_BYTES
  }

  /** Arguments that a request's cursor may be bound to: its own, or its own with the cursor redacted. */
  predicate MayBind(raw: Wire, path: Option<Path>, token: Bytes, args: Wire) {
    args == raw ||
    (path.Some? && exists omit :: RedactArgumentCursor(raw, path.value, token, omit) == Some(args))
  }

  /** The texts a continuation may be bound to. The path of the options object is known when the handler
      passes it on, and searched for when the handler makes a fresh one. */
  method CursorArgumentBindings(plan: Plan, raw: Wire, known: Option<Path>, token: Bytes)
    returns (bindings: seq<Bytes>, ghost path: Option<Path>)
    ensures known.Some? ==> path == known
    ensures known.None? ==> (path.Some? <==> exists p :: Holders(raw, token, 0) == {p})
    ensures known.None? && path.Some? ==> Holders(raw, token, 0) == {path.value}
    ensures forall b :: b in bindings <==> exists args :: MayBind(raw, path, token, args) && b == plan.text(args)
  {
    bindings := [plan.text(raw)];
    var at := known;
    if at.None? { at := UniqueArgumentCursorPath(raw, token); }
    path := at;
    assert MayBind(raw, path, token, raw);
    if at.None? { return; }
    var nulled := RedactArgumentCursor(raw, at.value, token, false);
    if nulled.Some? {
      assert MayBind(raw, path, token, nulled.value);
      if plan.text(nulled.value) !in bindings { bindings := bindings + [plan.text(nulled.value)]; }
    }
    var omitted := RedactArgumentCursor(raw, at.value, token, true);
    if omitted.Some? {
      assert MayBind(raw, path, token, omitted.value);
      if plan.text(omitted.value) !in bindings { bindings := bindings + [plan.text(omitted.value)]; }
    }
    forall b, args | MayBind(raw, path, token, args) && b == plan.text(args) ensures b in bindings {
      if args != raw {
        var omit :| RedactArgumentCursor(raw, path.value, token, omit) == Some(args);
        if omit { assert omitted == Some(args); } else { assert nulled == Some(args); }
      }
    }
  }

  /** Open a cursor against candidate hashes; a page continues with the hash its cursor carries. */
  method DecodeCursorCandidates(plan: Plan, token: Bytes, hashes: seq<Bytes>) returns (r: Option<Payload>)
    ensures r.Some? <==> plan.payload(token).Some? && Decodable(plan.payload(token).value)
                         && plan.payload(token).value.hash in hashes
    ensures r.Some? ==> r == plan.payload(token)
  {
    if plan.payload(token).None? { return None; }
    var p := plan.payload(token).value;
    if PayloadBytes(p) > MAX_CURSOR_BYTES { return None; }
    if p.version != 1 || p.key < 1 || p.hash !in hashes || |p.hash| != HASH_TEXT_BYTES
      || |p.id| != P.ID_BYTES || |p.tuple| > MAX_TUPLE_ITEMS
    { return None; }
    for i := 0 to |p.tuple|
      invariant forall k | k in p.tuple[..i] :: 0 < |k| <= P.MAX_KEY_BYTES
    {
      if p.tuple[i] == [] || |p.tuple[i]| > P.MAX_KEY_BYTES { return None; }
      assert p.tuple[..i + 1] == p.tuple[..i] + [p.tuple[i]];
    }
    assert p.tuple[..|p.tuple|] == p.tuple;
    if |p.mac| != HASH_TEXT_BYTES { return None; }
    r := Some(p);
  }

  /** The hash under which a request with a cursor continues; None when the cursor is refused. */
  ghost function ContinuesUnder(plan: Plan, raw: Wire, path: Option<Path>, token: Bytes): Option<Bytes> {
    var p := plan.payload(token);
    if p.Some? && Decodable(p.value) && exists args :: MayBind(raw, path, token, args) && p.value.hash == plan.digest(plan.text(args))
    then Some(p.value.hash) else None
  }

  /** Accept or refuse a continuation. */
  method OpenCursor(plan: Plan, raw: Wire, known: Option<Path>, token: Bytes)
    returns (r: Option<Payload>, ghost path: Option<Path>)
    ensures known.Some? ==> path == known
    ensures known.None? ==> Searched(raw, token, path)
    ensures ContinuesUnder(plan, raw, path, token) == if r.Some? then Some(r.value.hash) else None
    ensures r.Some? ==> r == plan.payload(token)
  {
    var bindings;
    bindings, path := CursorArgumentBindings(plan, raw, known, token);
    var hashes: seq<Bytes> := [];
    for i := 0 to |bindings|
      invariant forall h :: h in hashes <==> exists b :: b in bindings[..i] && h == plan.digest(b)
    {
      hashes := hashes + [plan.digest(bindings[i])];
      assert bindings[..i + 1] == bindings[..i] + [bindings[i]];
    }
    assert bindings[..|bindings|] == bindings;
    r := DecodeCursorCandidates(plan, token, hashes);
    if r.None? && plan.payload(token).Some? && Decodable(plan.payload(token).value) {
      forall args | MayBind(raw, path, token, args) ensures plan.payload(token).value.hash != plan.digest(plan.text(args)) {
        assert plan.text(args) in bindings;
      }
    }
  }

  /** A request differs from the first page, if at all, by the token in its options: where the token stands,
      the first page had null or nothing, and everything else is the same. */
  predicate ContinuationOf(raw: Wire, path: Option<Path>, token: Bytes, first: Wire) {
    Same(raw, first) ||
    (&& path.Some? && ObjectAt(raw, path.value).Some? && CursorAt(raw, path.value) == Some(WStr(token))
     && (Same(PutCursor(raw, path.value, None), first) || Same(PutCursor(raw, path.value, Some(WNull)), first)))
  }

  /** Only a continuation of the first page continues its query. */
  lemma ContinuesOnlyItsQuery(plan: Plan, raw: Wire, path: Option<Path>, token: Bytes, first: Wire)
    requires plan.Valid() && ContinuesUnder(plan, raw, path, token) == Some(plan.digest(plan.text(first)))
    ensures ContinuationOf(raw, path, token, first)
  {
    var args :| MayBind(raw, path, token, args) && plan.payload(token).value.hash == plan.digest(plan.text(args));
    assert Same(args, first);
    if args != raw {
      var omit :| RedactArgumentCursor(raw, path.value, token, omit) == Some(args);
      RedactionIsLocal(raw, path.value, token, omit);
    }
  }

  /** The requests after the first: each carries the token that the page before it returned, bound to the
      hash that page ran under. */
  ghost predicate Chain(plan: Plan, first: Wire, path: Path, tokens: seq<Bytes>)
    requires ObjectAt(first, path).Some?
  {
    forall i | 0 <= i < |tokens| :: Link(plan, first, path, tokens, i)
  }

  ghost predicate Link(plan: Plan, first: Wire, path: Path, tokens: seq<Bytes>, i: nat)
    requires ObjectAt(first, path).Some? && i < |tokens|
  {
    && plan.payload(tokens[i]).Some? && Decodable(plan.payload(tokens[i]).value)
    && Some(plan.payload(tokens[i]).value.hash)
       == if i == 0 then Some(plan.digest(plan.text(first))) else PageHash(plan, first, path, tokens, i - 1)
  }

  /** The hash that continuation i runs under. */
  ghost function PageHash(plan: Plan, first: Wire, path: Path, tokens: seq<Bytes>, i: nat): Option<Bytes>
    requires ObjectAt(first, path).Some? && i < |tokens|
  {
    ContinuesUnder(plan, PutCursor(first, path, Some(WStr(tokens[i]))), Some(path), tokens[i])
  }

  /** Every page of a chain is accepted and runs under the first page's hash. */
  lemma {:induction false} ChainKeepsFirstHash(plan: Plan, first: Wire, path: Path, tokens: seq<Bytes>, i: nat)
    requires ObjectAt(first, path).Some? && CursorAt(first, path) in {None, Some(WNull)}
    requires Chain(plan, first, path, tokens) && i < |tokens|
    ensures PageHash(plan, first, path, tokens, i) == Some(plan.digest(plan.text(first)))
  {
    assert Link(plan, first, path, tokens, i);
    if i > 0 { ChainKeepsFirstHash(plan, first, path, tokens, i - 1); }
    RedactionRestoresFirstPage(first, path, tokens[i]);
    assert MayBind(PutCursor(first, path, Some(WStr(tokens[i]))), Some(path), tokens[i], first);
  }

  lemma LinkCarriesFirstHash(plan: Plan, first: Wire, path: Path, tokens: seq<Bytes>, i: nat)
    requires ObjectAt(first, path).Some? && CursorAt(first, path) in {None, Some(WNull)}
    requires Chain(plan, first, path, tokens) && i < |tokens|
    ensures plan.payload(tokens[i]).Some? && Decodable(plan.payload(tokens[i]).value)
    ensures plan.payload(tokens[i]).value.hash == plan.digest(plan.text(first))
  {
    assert Link(plan, first, path, tokens, i);
    if i > 0 { ChainKeepsFirstHash(plan, first, path, tokens, i - 1); }
  }

  // ----- the same when the path has to be searched for

  /** What the search makes of a request. */
  ghost predicate Searched(raw: Wire, token: Bytes, found: Option<Path>) {
    && (found.Some? <==> exists p :: Holders(raw, token, 0) == {p})
    && (found.Some? ==> Holders(raw, token, 0) == {found.value})
  }

  lemma HeldInField(v: Wire, key: Bytes, p: Path, token: Bytes, depth: nat)
    requires v.WObj? && key in v.fields && key != CURSOR && depth <= MAX_DEPTH && p in Holders(v.fields[key], token, depth + 1)
    ensures [key] + p in Holders(v, token, depth)
  {
  }

  lemma HeldInItem(v: Wire, i: nat, p: Path, token: Bytes, depth: nat)
    requires v.WArr? && i < |v.items| && depth <= MAX_DEPTH && p in Holders(v.items[i], token, depth + 1)
    ensures [Itoa(i)] + p in Holders(v, token, depth)
  {
  }

  lemma {:induction false} PutIsHeld(v: Wire, path: Path, token: Bytes, depth: nat)
    requires ObjectAt(v, path).Some? && Searchable(v, path, depth)
    ensures path in Holders(PutCursor(v, path, Some(WStr(token))), token, depth)
    decreases |path|
  {
    var next := PutCursor(v, path, Some(WStr(token)));
    if path == [] {
      assert OwnHolder(next, token) == {[]};
    } else {
      var rest := path[1..];
      PutIsHeld(Child(v, path[0]).value, rest, token, depth + 1);
      assert [path[0]] + rest == path;
      if v.WObj? {
        HeldInField(next, path[0], rest, token, depth);
      } else {
        HeldInItem(next, Atoi(path[0]).value, rest, token, depth);
      }
    }
  }

  /** The token makes a difference to the canonical text. */
  lemma {:induction false} PutIsNotSame(v: Wire, path: Path, token: Bytes)
    requires ObjectAt(v, path).Some? && CursorAt(v, path) in {None, Some(WNull)}
    ensures !Same(PutCursor(v, path, Some(WStr(token))), v)
    decreases |path|
  {
    var next := PutCursor(v, path, Some(WStr(token)));
    if path == [] {
      assert CURSOR in next.fields && CURSOR in Canonical(next).fields;
      assert Canonical(next).fields[CURSOR] == WStr(token);
      if CURSOR in v.fields { assert Canonical(v).fields[CURSOR] == WNull; }
    } else {
      var c := Child(v, path[0]).value;
      PutIsNotSame(c, path[1..], token);
      if v.WObj? {
        assert Canonical(next).fields[path[0]] == Canonical(next.fields[path[0]]);
        assert Canonical(v).fields[path[0]] == Canonical(c);
      } else {
        var i := Atoi(path[0]).value;
        assert Canonical(next).items[i] == Canonical(next.items[i]);
        assert Canonical(v).items[i] == Canonical(c);
      }
    }
  }

  /** A continuation whose options object has to be searched for runs under the first page's hash exactly when no
      other object holds the token; otherwise it is refused. */
  lemma FallbackContinuesExactly(plan: Plan, first: Wire, path: Path, token: Bytes, found: Option<Path>)
    requires plan.Valid() && ObjectAt(first, path).Some? && CursorAt(first, path) in {None, Some(WNull)} && Searchable(first, path, 0)
    requires plan.payload(token).Some? && Decodable(plan.payload(token).value)
    requires plan.payload(token).value.hash == plan.digest(plan.text(first))
    requires Searched(PutCursor(first, path, Some(WStr(token))), token, found)
    ensures ContinuesUnder(plan, PutCursor(first, path, Some(WStr(token))), found, token) ==
      if Holders(PutCursor(first, path, Some(WStr(token))), token, 0) == {path} then Some(plan.digest(plan.text(first))) else None
  {
    var next := PutCursor(first, path, Some(WStr(token)));
    PutIsHeld(first, path, token, 0);
    if Holders(next, token, 0) == {path} {
      assert found == Some(path);
      RedactionRestoresFirstPage(first, path, token);
      assert MayBind(next, found, token, first);
    } else {
      assert found.None?;
      PutIsNotSame(first, path, token);
    }
  }

  /** So with tokens that nothing held before, every page of a chain runs under the first page's hash even when
      each handler passes fresh options on. */
  lemma FallbackChainKeepsFirstHash(plan: Plan, first: Wire, path: Path, tokens: seq<Bytes>, i: nat, found: Option<Path>)
    requires plan.Valid() && ObjectAt(first, path).Some? && CursorAt(first, path) in {None, Some(WNull)} && Searchable(first, path, 0)
    requires Chain(plan, first, path, tokens) && i < |tokens| && Holders(first, tokens[i], 0) == {}
    requires Searched(PutCursor(first, path, Some(WStr(tokens[i]))), tokens[i], found)
    ensures ContinuesUnder(plan, PutCursor(first, path, Some(WStr(tokens[i]))), found, tokens[i]) == Some(plan.digest(plan.text(first)))
  {
    LinkCarriesFirstHash(plan, first, path, tokens, i);
    FreshTokenFound(first, path, tokens[i], 0);
    FallbackContinuesExactly(plan, first, path, tokens[i], found);
  }
}
