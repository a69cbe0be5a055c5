/** The generic tree that an XML-to-dictionary parser produces, and the two
    navigation helpers every extractor goes through: `DeepValue` (walk a chain
    of keys, substituting a default for anything missing) and `DeepValueList`
    (the same walk, then a single node is wrapped into a one-element list). */
module Tree {

  datatype Option<+T> = None | Some(value: T) {
    function GetOr(default: T): T {
      match this
      case Some(v) => v
      case None => default
    }
  }

  /** A parsed XML node: `Null` is the parser's None (an empty element), `Str`
      a text leaf, `Map` an element keyed by child tag, by attribute name
      (`@type`, `@xml:lang`) or by `#text` for the text content, and `Seq` the
      siblings of a tag that occurs more than once. */
  datatype Node = Null | Str(text: string) | Map(children: map<string, Node>) | Seq(items: seq<Node>)

  /** The empty mapping, the default of both navigation helpers. */
  const EMPTY: Node := Map(map[])

  /** Python truthiness of a node. */
  predicate Truthy(n: Node) {
    match n
    case Null => false
    case Str(s) => s != []
    case Map(m) => m != map[]
    case Seq(xs) => xs != []
  }

  /** The three values the navigation helper replaces by its default: `{}`, `[]` and None. */
  predicate IsMissing(n: Node) {
    n == EMPTY || n == Seq([]) || n == Null
  }

  predicate HasKey(n: Node, key: string) {
    n.Map? && key in n.children
  }

  /** `n.get(key, default)`. Looking a key up in a node that is not a mapping
      gives the default as well. */
  function Lookup(n: Node, key: string, default: Node): Node {
    if HasKey(n, key) then n.children[key] else default
  }

  /** The node reached by applying `.get(key, {})` once per key. */
  function Walk(n: Node, keys: seq<string>): Node
    decreases |keys|
  {
    if keys == [] then n else Walk(Lookup(n, keys[0], EMPTY), keys[1..])
  }

  /** Reference definition of a path: every key is present, each in a mapping. */
  predicate PathDefined(n: Node, keys: seq<string>)
    decreases |keys|
  {
    keys == [] || (HasKey(n, keys[0]) && PathDefined(n.children[keys[0]], keys[1..]))
  }

  /** The node at the end of a defined path. */
  function Follow(n: Node, keys: seq<string>): Node
    requires PathDefined(n, keys)
    decreases |keys|
  {
    if keys == [] then n else Follow(n.children[keys[0]], keys[1..])
  }

  lemma {:induction false} WalkFromEmpty(keys: seq<string>)
    ensures Walk(EMPTY, keys) == EMPTY
    decreases |keys|
  {
    if keys != [] {
      WalkFromEmpty(keys[1..]);
    }
  }

  /** Walking a chain of keys reaches the node at the end of the path when
      every key is present, and the empty mapping as soon as one is absent. */
  lemma {:induction false} WalkFollows(n: Node, keys: seq<string>)
    ensures Walk(n, keys) == if PathDefined(n, keys) then Follow(n, keys) else EMPTY
    decreases |keys|
  {
    if keys != [] {
      if HasKey(n, keys[0]) {
        WalkFollows(n.children[keys[0]], keys[1..]);
      } else {
        WalkFromEmpty(keys[1..]);
      }
    }
  }

  /** What `_deep_value(n, *keys, default=default)` returns: the node at the end
      of the path when the path exists and that node is not `{}`, `[]` or None;
      the default in every other case. */
  function Resolve(n: Node, keys: seq<string>, default: Node): (r: Node)
    ensures PathDefined(n, keys) && !IsMissing(Follow(n, keys)) ==> r == Follow(n, keys)
    ensures !PathDefined(n, keys) || IsMissing(Follow(n, keys)) ==> r == default
  {
    WalkFollows(n, keys);
    var node := Walk(n, keys);
    if IsMissing(node) then default else node
  }

  /** A two-key path through two mappings. */
  lemma FollowTwo(n: Node, outer: string, inner: string)
    requires HasKey(n, outer) && HasKey(n.children[outer], inner)
    ensures PathDefined(n, [outer, inner])
    ensures Follow(n, [outer, inner]) == n.children[outer].children[inner]
  {
    var path := [outer, inner];
    assert path[1..] == [inner] && path[1..][1..] == [];
    assert PathDefined(n.children[outer].children[inner], path[1..][1..]);
    assert PathDefined(n.children[outer], path[1..]);
    assert Follow(n.children[outer], path[1..]) == Follow(n.children[outer].children[inner], path[1..][1..]);
  }

  /** `_deep_value`: drills down into the tree one key at a time. */
  method DeepValue(n: Node, keys: seq<string>, default: Node) returns (r: Node)
    ensures r == Resolve(n, keys, default)
  {
    var node := n;
    var i := 0;
    while i < |keys|
      invariant 0 <= i <= |keys|
      invariant Walk(node, keys[i..]) == Walk(n, keys)
    {
      assert keys[i..][1..] == keys[i + 1..];
      node := Lookup(node, keys[i], EMPTY);
      i := i + 1;
    }
    assert keys[i..] == [];
    r := if IsMissing(node) then default else node;
  }

  /** `_deep_value_list`: the same walk, then a truthy node that is not a list
      becomes a one-element list. A list is returned unchanged, and so is a
      falsy result, which iterates as nothing. */
  function DeepValueList(n: Node, keys: seq<string>, default: Node): (r: Node)
    ensures Resolve(n, keys, default).Seq? ==> r == Resolve(n, keys, default)
    ensures Truthy(Resolve(n, keys, default)) && !Resolve(n, keys, default).Seq? ==>
              r == Seq([Resolve(n, keys, default)])
    ensures !Truthy(Resolve(n, keys, default)) ==> r == Resolve(n, keys, default)
    ensures r.Seq? || !Truthy(r)
  {
    var v := Resolve(n, keys, default);
    if Truthy(v) && !v.Seq? then Seq([v]) else v
  }

  /** The elements a `for` loop visits in a node that is a list or falsy. */
  function Items(n: Node): seq<Node> {
    match n
    case Seq(xs) => xs
    case _ => []
  }

  /** The elements visited when iterating `_deep_value_list(n, *keys)`,
      stated against the path itself: nothing when the path is absent or ends
      in a falsy node, the list's elements when it ends in a list, and the node
      alone otherwise. */
  lemma ListItemsOfPath(n: Node, keys: seq<string>, default: Node)
    requires default == EMPTY || default == Seq([])
    ensures !PathDefined(n, keys) ==> Items(DeepValueList(n, keys, default)) == []
    ensures PathDefined(n, keys) ==>
              Items(DeepValueList(n, keys, default)) ==
                (if Follow(n, keys).Seq? then Follow(n, keys).items
                 else if Truthy(Follow(n, keys)) then [Follow(n, keys)]
                 else [])
  {
  }

  /** A tag that occurs once and the same tag given as a one-element list are
      visited identically. */
  lemma SingleAndListAgree(m: map<string, Node>, key: string, x: Node)
    requires Truthy(x) && !x.Seq?
    ensures Items(DeepValueList(Map(m[key := x]), [key], EMPTY)) == [x]
    ensures Items(DeepValueList(Map(m[key := Seq([x])]), [key], EMPTY)) == [x]
  {
    var path := [key];
    assert path[0] == key && path[1..] == [];
    var single, listed := Map(m[key := x]), Map(m[key := Seq([x])]);
    assert PathDefined(single, path) && PathDefined(listed, path);
    assert Follow(single, path) == Follow(single.children[key], path[1..]) == x;
    assert Follow(listed, path) == Follow(listed.children[key], path[1..]) == Seq([x]);
  }
}
