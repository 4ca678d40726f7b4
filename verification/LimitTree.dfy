/** The search tree of one limit zone, ordered by hash and then by key. */
module LimitTree {
  import opened LimitConn
  import opened Options

  datatype Entry = Entry(hash: nat, key: Key, conn: nat)

  datatype Tree = Sentinel | Node(left: Tree, entry: Entry, right: Tree)

  /** `ngx_memn2cmp`: the first difference decides, then the length. */
  function Compare(a: Key, b: Key): int {
    if a == [] then (if b == [] then 0 else -1)
    else if b == [] then 1
    else if a[0] != b[0] then a[0] - b[0]
    else Compare(a[1..], b[1..])
  }

  lemma {:induction false} CompareEqual(a: Key, b: Key)
    ensures Compare(a, b) == 0 <==> a == b
    ensures Compare(a, b) < 0 <==> Compare(b, a) > 0
  {
    if a != [] && b != [] && a[0] == b[0] {
      CompareEqual(a[1..], b[1..]);
      assert a == [a[0]] + a[1..] && b == [b[0]] + b[1..];
    }
  }

  lemma {:induction false} CompareTransitive(a: Key, b: Key, c: Key)
    requires Compare(a, b) < 0 && Compare(b, c) < 0
    ensures Compare(a, c) < 0
  {
    if a != [] && b != [] && c != [] && a[0] == b[0] == c[0] {
      CompareTransitive(a[1..], b[1..], c[1..]);
    }
  }

  predicate Before(e: Entry, f: Entry) {
    e.hash < f.hash || (e.hash == f.hash && Compare(e.key, f.key) < 0)
  }

  lemma BeforeTransitive(e: Entry, f: Entry, g: Entry)
    requires Before(e, f) && Before(f, g)
    ensures Before(e, g)
  {
    if e.hash == f.hash == g.hash { CompareTransitive(e.key, f.key, g.key); }
  }

  function Entries(t: Tree): set<Entry> {
    match t
    case Sentinel => {}
    case Node(l, e, r) => Entries(l) + {e} + Entries(r)
  }

  ghost predicate Ordered(t: Tree) {
    match t
    case Sentinel => true
    case Node(l, e, r) =>
      && Ordered(l) && Ordered(r)
      && (forall f :: f in Entries(l) ==> Before(f, e))
      && (forall f :: f in Entries(r) ==> Before(e, f))
  }

  ghost predicate Has(t: Tree, hash: nat, key: Key) {
    exists e :: e in Entries(t) && e.hash == hash && e.key == key
  }

  lemma OrderedParts(t: Tree)
    requires Ordered(t) && t.Node?
    ensures forall f :: f in Entries(t.left) ==> Before(f, t.entry)
    ensures forall f :: f in Entries(t.right) ==> Before(t.entry, f)
  {
  }

  /** Where the search goes on. */
  lemma Narrows(t: Tree, hash: nat, key: Key)
    requires Ordered(t) && t.Node? && (t.entry.hash != hash || t.entry.key != key)
    ensures Before(Entry(hash, key, 0), t.entry) ==> (Has(t, hash, key) <==> Has(t.left, hash, key))
    ensures !Before(Entry(hash, key, 0), t.entry) ==> (Has(t, hash, key) <==> Has(t.right, hash, key))
  {
    CompareEqual(key, t.entry.key);
    CompareEqual(t.entry.key, key);
    hide Compare, Ordered;
    OrderedParts(t);
    if Has(t, hash, key) {
      var e :| e in Entries(t) && e.hash == hash && e.key == key;
      if e in Entries(t.left) {
        assert Has(t.left, hash, key) && Before(e, t.entry);
      } else {
        assert Has(t.right, hash, key) && Before(t.entry, e);
      }
    }
    if Has(t.left, hash, key) {
      var e :| e in Entries(t.left) && e.hash == hash && e.key == key;
      assert e in Entries(t);
    }
    if Has(t.right, hash, key) {
      var e :| e in Entries(t.right) && e.hash == hash && e.key == key;
      assert e in Entries(t);
    }
  }

  /** `limit_conn_lookup`: in an ordered tree the node with this hash and key is found if there is one. */
  method Lookup(t: Tree, key: Key, hash: nat) returns (r: Option<Entry>)
    requires Ordered(t)
    ensures r.Some? <==> Has(t, hash, key)
    ensures r.Some? ==> r.value in Entries(t) && r.value.hash == hash && r.value.key == key
  {
    var node := t;
    while node.Node?
      invariant Ordered(node) && Entries(node) <= Entries(t)
      invariant Has(node, hash, key) <==> Has(t, hash, key)
      decreases node
    {
      if hash < node.entry.hash {
        Narrows(node, hash, key);
        node := node.left;
      } else if hash > node.entry.hash {
        Narrows(node, hash, key);
        node := node.right;
      } else {
        var rc := Compare(key, node.entry.key);
        CompareEqual(key, node.entry.key);
        if rc == 0 {
          assert node.entry in Entries(node);
          return Some(node.entry);
        }
        Narrows(node, hash, key);
        node := if rc < 0 then node.left else node.right;
      }
    }
    r := None;
  }

  /** `rbtree_insert_value`: the new node becomes a leaf, right of equal keys. */
  function Insert(t: Tree, e: Entry): Tree {
    match t
    case Sentinel => Node(Sentinel, e, Sentinel)
    case Node(l, f, r) => if Before(e, f) then Node(Insert(l, e), f, r) else Node(l, f, Insert(r, e))
  }

  /** A node inserted after a failed lookup keeps the tree ordered and adds exactly that node. */
  lemma {:induction false} InsertKeeps(t: Tree, e: Entry)
    requires Ordered(t) && !Has(t, e.hash, e.key)
    ensures Ordered(Insert(t, e)) && Entries(Insert(t, e)) == Entries(t) + {e}
  {
    if t.Node? {
      assert t.entry in Entries(t);
      CompareEqual(e.key, t.entry.key);
      CompareEqual(t.entry.key, e.key);
      if Before(e, t.entry) {
        assert !Has(t.left, e.hash, e.key);
        InsertKeeps(t.left, e);
      } else {
        assert !Has(t.right, e.hash, e.key);
        InsertKeeps(t.right, e);
      }
    }
  }

  /** Balancing rotates nodes; order and contents survive either rotation. */
  lemma RotationKeeps(a: Tree, e: Entry, b: Tree, f: Entry, c: Tree)
    ensures var x, y := Node(Node(a, e, b), f, c), Node(a, e, Node(b, f, c));
      Entries(x) == Entries(y) && (Ordered(x) <==> Ordered(y))
  {
    var x, y := Node(Node(a, e, b), f, c), Node(a, e, Node(b, f, c));
    if Ordered(x) {
      assert e in Entries(x.left);
      forall g | g in Entries(c) ensures Before(e, g) { BeforeTransitive(e, f, g); }
    }
    if Ordered(y) {
      assert f in Entries(y.right);
      forall g | g in Entries(a) ensures Before(g, f) { BeforeTransitive(g, e, f); }
    }
  }
}
