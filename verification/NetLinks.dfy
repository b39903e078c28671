/** server/db.py, `replace_net_links`: the links of the probed nodes are replaced in one transaction. */
module NetLinks {
  import opened Wrappers
  import opened Sequences

  /** Node ids, numbered in their sort order; 0 stands for a missing or empty one. */
  type Nid = nat

  /** Fields where a known value outlives an unknown one. */
  datatype Ports = Ports(aIf: Option<int>, bIf: Option<int>, aPort: Option<string>, bPort: Option<string>) {
    function Swapped(): Ports {
      Ports(bIf, aIf, bPort, aPort)
    }

    /** `COALESCE(excluded, stored)`, field by field. */
    function Over(stored: Ports): Ports {
      Ports(if aIf.Some? then aIf else stored.aIf, if bIf.Some? then bIf else stored.bIf,
            if aPort.Some? then aPort else stored.aPort, if bPort.Some? then bPort else stored.bPort)
    }
  }

  const UNKNOWN := Ports(None, None, None, None)

  /** Fields where the latest input wins, unknown or not. */
  datatype Facts = Facts(viaSource: Option<string>, confidence: Option<string>, medium: Option<string>,
                         vlan: Option<int>)

  datatype Link = Link(a: Nid, b: Nid, kind: Option<string>, ports: Ports, facts: Facts) {
    function Reversed(): Link {
      Link(b, a, kind, ports.Swapped(), facts)
    }

    predicate Usable() {
      a != 0 && b != 0 && a != b
    }
  }

  datatype Key = Key(a: Nid, b: Nid, kind: Option<string>) {
    predicate Touches(nodes: set<Nid>) {
      a in nodes || b in nodes
    }
  }

  datatype Body = Body(ports: Ports, facts: Facts, firstSeen: int, lastSeen: int)

  datatype Row = Row(key: Key, body: Body)

  /** The unique index on (a, b, kind) takes a NULL kind as different from every other: rows with a kind form a map,
      rows without one a plain list. */
  datatype Table = Table(keyed: map<Key, Body>, loose: seq<Row>)

  // ---- the input ----

  /** Smaller id first, its port fields along with it. */
  function Canon(l: Link): Link {
    if l.a > l.b then l.Reversed() else l
  }

  function Canons(links: seq<Link>): seq<Link> {
    if links == [] then []
    else if links[0].Usable() then [Canon(links[0])] + Canons(links[1..])
    else Canons(links[1..])
  }

  function KeyOf(l: Link): Key {
    Key(l.a, l.b, l.kind)
  }

  function Keys(cs: seq<Link>): set<Key> {
    set l | l in cs :: KeyOf(l)
  }

  // ---- the statements ----

  function KeysOf(t: Table): set<Key> {
    t.keyed.Keys + set r | r in t.loose :: r.key
  }

  /** Keys at a probed node that the cycle did not derive again. */
  function Stale(t: Table, nodes: set<Nid>, news: set<Key>): set<Key> {
    (set k | k in KeysOf(t) && k.Touches(nodes)) - news
  }

  function Except(rows: seq<Row>, keys: set<Key>): seq<Row> {
    if rows == [] then []
    else if rows[0].key in keys then Except(rows[1..], keys)
    else [rows[0]] + Except(rows[1..], keys)
  }

  function Deleted(t: Table, keys: set<Key>): Table {
    Table(t.keyed - keys, Except(t.loose, keys))
  }

  function Merged(stored: Option<Body>, l: Link, recv: int): Body {
    match stored
    case None => Body(l.ports, l.facts, recv, recv)
    case Some(b) => Body(l.ports.Over(b.ports), l.facts, b.firstSeen, recv)
  }

  function At(t: Table, k: Key): Option<Body> {
    if k in t.keyed then Some(t.keyed[k]) else None
  }

  /** `INSERT ... ON CONFLICT(a_nid, b_nid, link_kind) DO UPDATE` */
  function Upserted(t: Table, l: Link, recv: int): Table {
    var k := KeyOf(l);
    if l.kind.Some? then t.(keyed := t.keyed[k := Merged(At(t, k), l, recv)])
    else t.(loose := t.loose + [Row(k, Merged(None, l, recv))])
  }

  function UpsertedAll(t: Table, cs: seq<Link>, recv: int): Table
    decreases |cs|
  {
    if cs == [] then t
    else Upserted(UpsertedAll(t, cs[..|cs| - 1], recv), cs[|cs| - 1], recv)
  }

  function Replaced(t: Table, links: seq<Link>, nodes: set<Nid>, recv: int): Table {
    var cs := Canons(links);
    UpsertedAll(Deleted(t, Stale(t, nodes - {0}, Keys(cs))), cs, recv)
  }

  class Links {
    var t: Table

    constructor ()
      ensures t == Table(map[], [])
    {
      t := Table(map[], []);
    }

    method Canonical(links: seq<Link>) returns (cs: seq<Link>, news: set<Key>)
      ensures cs == Canons(links) && news == Keys(cs)
    {
      cs, news := [], {};
      for i := 0 to |links|
        invariant cs + Canons(links[i..]) == Canons(links)
        invariant news == Keys(cs)
      {
        assert links[i..][1..] == links[i + 1..];
        var l := links[i];
        if l.Usable() {
          var a, b, ports := l.a, l.b, l.ports;
          if a > b {
            a, b, ports := b, a, ports.Swapped();
          }
          KeysPlus(cs, Link(a, b, l.kind, ports, l.facts));
          cs := cs + [Link(a, b, l.kind, ports, l.facts)];
          news := news + {Key(a, b, l.kind)};
        }
      }
    }

    method DeleteAll(keys: set<Key>)
      modifies this
      ensures t == Deleted(old(t), keys)
    {
      var left := keys;
      ghost var done: set<Key> := {};
      ExceptNothing(t.loose);
      while left != {}
        invariant done !! left && done + left == keys
        invariant t == Deleted(old(t), done)
        decreases left
      {
        var k :| k in left;
        ExceptOneMore(old(t).loose, done, k);
        assert old(t).keyed - done - {k} == old(t).keyed - (done + {k});
        t := Table(t.keyed - {k}, Except(t.loose, {k}));
        left, done := left - {k}, done + {k};
      }
      assert done == keys;
    }

    method ReplaceNetLinks(links: seq<Link>, nodeNids: set<Nid>, recv: int)
      modifies this
      ensures t == Replaced(old(t), links, nodeNids, recv)
    {
      var nodes := nodeNids - {0};
      var cs, news := Canonical(links);
      if nodes != {} {
        DeleteAll(Stale(t, nodes, news));
      } else {
        assert Stale(t, nodes, news) == {};
        ExceptNothing(t.loose);
        assert t.keyed - {} == t.keyed;
      }
      ghost var before := t;
      for i := 0 to |cs|
        invariant t == UpsertedAll(before, cs[..i], recv)
      {
        assert cs[..i + 1][..i] == cs[..i];
        t := Upserted(t, cs[i], recv);
      }
      assert cs[..|cs|] == cs;
    }
  }

  lemma KeysPlus(cs: seq<Link>, l: Link)
    ensures Keys(cs + [l]) == Keys(cs) + {KeyOf(l)}
  {
    assert forall x :: x in cs + [l] <==> x in cs || x == l;
  }

  lemma {:induction false} ExceptNothing(rows: seq<Row>)
    ensures Except(rows, {}) == rows
  {
    if rows == [] {
    } else {
      ExceptNothing(rows[1..]);
      HeadPlusTail(rows);
    }
  }

  lemma {:induction false} ExceptOneMore(rows: seq<Row>, done: set<Key>, k: Key)
    ensures Except(Except(rows, done), {k}) == Except(rows, done + {k})
  {
    if rows == [] {
    } else {
      ExceptOneMore(rows[1..], done, k);
      ConsTail(rows[0], Except(rows[1..], done));
    }
  }

  // ---- what one call leaves for one key ----

  /** For each field, the newest known value among the inputs for a key. */
  function Newest(cs: seq<Link>, k: Key): Ports
    decreases |cs|
  {
    if cs == [] then UNKNOWN
    else
      var rest := Newest(cs[..|cs| - 1], k);
      if KeyOf(cs[|cs| - 1]) == k then cs[|cs| - 1].ports.Over(rest) else rest
  }

  /** The facts of the last input for a key. */
  function LastFacts(cs: seq<Link>, k: Key): Facts
    requires k in Keys(cs)
    decreases |cs|
  {
    var last := cs[|cs| - 1];
    if KeyOf(last) == k then last.facts
    else
      KeysPlus(cs[..|cs| - 1], last);
      assert cs == cs[..|cs| - 1] + [last];
      LastFacts(cs[..|cs| - 1], k)
  }

  function Expected(stored: Option<Body>, cs: seq<Link>, k: Key, recv: int): Option<Body> {
    if k !in Keys(cs) then stored
    else
      match stored
      case None => Some(Body(Newest(cs, k), LastFacts(cs, k), recv, recv))
      case Some(b) => Some(Body(Newest(cs, k).Over(b.ports), LastFacts(cs, k), b.firstSeen, recv))
  }

  lemma {:induction false} UpsertedAt(t: Table, cs: seq<Link>, recv: int, k: Key)
    requires k.kind.Some?
    ensures At(UpsertedAll(t, cs, recv), k) == Expected(At(t, k), cs, k, recv)
    decreases |cs|
  {
    if cs == [] {
    } else {
      var n := |cs| - 1;
      UpsertedAt(t, cs[..n], recv, k);
      KeysPlus(cs[..n], cs[n]);
      assert cs == cs[..n] + [cs[n]];
      NothingNewest(cs[..n], k);
    }
  }

  lemma {:induction false} NothingNewest(cs: seq<Link>, k: Key)
    ensures k !in Keys(cs) ==> Newest(cs, k) == UNKNOWN
    decreases |cs|
  {
    if cs == [] {
    } else {
      var n := |cs| - 1;
      NothingNewest(cs[..n], k);
      KeysPlus(cs[..n], cs[n]);
      assert cs == cs[..n] + [cs[n]];
    }
  }

  /** Rows added for the inputs without a kind, in input order. */
  function LooseOf(cs: seq<Link>, recv: int): seq<Row>
    decreases |cs|
  {
    if cs == [] then []
    else
      LooseOf(cs[..|cs| - 1], recv)
      + (if cs[|cs| - 1].kind.Some? then [] else [Row(KeyOf(cs[|cs| - 1]), Merged(None, cs[|cs| - 1], recv))])
  }

  lemma {:induction false} UpsertedLoose(t: Table, cs: seq<Link>, recv: int)
    ensures UpsertedAll(t, cs, recv).loose == t.loose + LooseOf(cs, recv)
    decreases |cs|
  {
    if cs == [] {
      PlusEmpty(t.loose);
    } else {
      UpsertedLoose(t, cs[..|cs| - 1], recv);
    }
  }

  ghost predicate KindsOk(t: Table) {
    && (forall k :: k in t.keyed ==> k.kind.Some?)
    && (forall r :: r in t.loose ==> r.key.kind.None?)
  }

  ghost predicate Ordered(t: Table) {
    forall k :: k in KeysOf(t) ==> k.a < k.b
  }

  /** The outcome for a key with a kind: gone if stale, untouched if not derived, else merged. */
  lemma ReplacedAt(t: Table, links: seq<Link>, nodes: set<Nid>, recv: int, k: Key)
    requires KindsOk(t) && k.kind.Some?
    ensures var cs := Canons(links);
      At(Replaced(t, links, nodes, recv), k)
      == if k in Keys(cs) then Expected(At(t, k), cs, k, recv)
         else if k.Touches(nodes - {0}) then None
         else At(t, k)
  {
    var cs := Canons(links);
    var stale := Stale(t, nodes - {0}, Keys(cs));
    UpsertedAt(Deleted(t, stale), cs, recv, k);
    assert forall r :: r in t.loose ==> r.key != k;
  }

  lemma {:induction false} ExceptMembers(rows: seq<Row>, keys: set<Key>)
    ensures forall r :: r in Except(rows, keys) <==> r in rows && r.key !in keys
  {
    if rows == [] {
    } else {
      ExceptMembers(rows[1..], keys);
      HeadPlusTail(rows);
    }
  }

  lemma {:induction false} LooseMembers(cs: seq<Link>, recv: int)
    ensures forall r :: r in LooseOf(cs, recv) ==> r.key in Keys(cs) && r.key.kind.None?
    ensures forall k :: k in Keys(cs) && k.kind.None? ==> exists r :: r in LooseOf(cs, recv) && r.key == k
    decreases |cs|
  {
    if cs == [] {
    } else {
      var n := |cs| - 1;
      LooseMembers(cs[..n], recv);
      KeysPlus(cs[..n], cs[n]);
      assert cs == cs[..n] + [cs[n]];
      var more := if cs[n].kind.Some? then [] else [Row(KeyOf(cs[n]), Merged(None, cs[n], recv))];
      assert LooseOf(cs, recv) == LooseOf(cs[..n], recv) + more;
      assert cs[n].kind.None? ==> more[0] in LooseOf(cs, recv);
      forall k | k in Keys(cs) && k.kind.None?
        ensures exists r :: r in LooseOf(cs, recv) && r.key == k
      {
        if k in Keys(cs[..n]) {
          var r :| r in LooseOf(cs[..n], recv) && r.key == k;
          assert r in LooseOf(cs, recv);
        }
      }
    }
  }

  lemma {:induction false} CanonsOrdered(links: seq<Link>)
    ensures forall l :: l in Canons(links) ==> 0 < l.a < l.b
  {
    if links == [] {
    } else {
      CanonsOrdered(links[1..]);
    }
  }

  /** The keys after a call: exactly the derived ones at a probed node, and elsewhere the old ones with the
      derived ones. Every pair stays in order, and one row per key is what the map says. */
  lemma KeysAfter(t: Table, links: seq<Link>, nodes: set<Nid>, recv: int)
    requires KindsOk(t) && Ordered(t)
    ensures var t', news := Replaced(t, links, nodes, recv), Keys(Canons(links));
      && KindsOk(t') && Ordered(t')
      && forall k :: k in KeysOf(t') <==> k in news || (k in KeysOf(t) && !k.Touches(nodes - {0}))
  {
    var cs := Canons(links);
    var t', news := Replaced(t, links, nodes, recv), Keys(cs);
    var stale := Stale(t, nodes - {0}, news);
    UpsertedLoose(Deleted(t, stale), cs, recv);
    ExceptMembers(t.loose, stale);
    LooseMembers(cs, recv);
    CanonsOrdered(links);
    KeyedKinds(Deleted(t, stale), cs, recv);
    forall k
      ensures k in KeysOf(t') <==> k in news || (k in KeysOf(t) && !k.Touches(nodes - {0}))
    {
      if k.kind.Some? {
        ReplacedAt(t, links, nodes, recv, k);
      } else {
        LooseKey(t, cs, recv, stale, k);
      }
    }
    assert forall k :: k in news ==> k.a < k.b;
  }

  lemma LooseKey(t: Table, cs: seq<Link>, recv: int, stale: set<Key>, k: Key)
    requires KindsOk(t) && k.kind.None? && stale !! Keys(cs)
    ensures k in KeysOf(UpsertedAll(Deleted(t, stale), cs, recv)) <==> k in Keys(cs) || (k in KeysOf(t) && k !in stale)
  {
    var t' := UpsertedAll(Deleted(t, stale), cs, recv);
    UpsertedLoose(Deleted(t, stale), cs, recv);
    ExceptMembers(t.loose, stale);
    LooseMembers(cs, recv);
    KeyedKinds(Deleted(t, stale), cs, recv);
    if k in KeysOf(t) && k !in stale {
      var r :| r in t.loose && r.key == k;
      assert r in t'.loose;
    }
    if k in Keys(cs) {
      var r :| r in LooseOf(cs, recv) && r.key == k;
      assert r in t'.loose;
    }
  }

  lemma {:induction false} KeyedKinds(t: Table, cs: seq<Link>, recv: int)
    requires forall k :: k in t.keyed ==> k.kind.Some?
    ensures forall k :: k in UpsertedAll(t, cs, recv).keyed ==> k.kind.Some?
    decreases |cs|
  {
    if cs == [] {
    } else {
      KeyedKinds(t, cs[..|cs| - 1], recv);
    }
  }

  /** A key that was stored and survives keeps its first sighting; a link between nodes not probed and not
      derived keeps its whole row. */
  lemma SurvivorsKeepFirstSeen(t: Table, links: seq<Link>, nodes: set<Nid>, recv: int, k: Key)
    requires KindsOk(t) && k in t.keyed && k in Replaced(t, links, nodes, recv).keyed
    ensures Replaced(t, links, nodes, recv).keyed[k].firstSeen == t.keyed[k].firstSeen
    ensures k !in Keys(Canons(links)) ==> Replaced(t, links, nodes, recv).keyed[k] == t.keyed[k]
  {
    ReplacedAt(t, links, nodes, recv, k);
  }

  // ---- reversal ----

  /** The same links, each written from either end. */
  predicate SameEitherWay(xs: seq<Link>, ys: seq<Link>) {
    |xs| == |ys| && forall i :: 0 <= i < |xs| ==> ys[i] == xs[i] || ys[i] == xs[i].Reversed()
  }

  lemma {:induction false} DirectionIsIrrelevant(xs: seq<Link>, ys: seq<Link>)
    requires SameEitherWay(xs, ys)
    ensures Canons(xs) == Canons(ys)
    ensures forall t: Table, nodes: set<Nid>, recv: int :: Replaced(t, xs, nodes, recv) == Replaced(t, ys, nodes, recv)
  {
    if xs == [] {
    } else {
      DirectionIsIrrelevant(xs[1..], ys[1..]);
    }
  }

  // ---- idempotence ----

  function Blur(b: Body): Body {
    b.(lastSeen := 0)
  }

  function BlurRows(rows: seq<Row>): seq<Row> {
    seq(|rows|, i requires 0 <= i < |rows| => rows[i].(body := Blur(rows[i].body)))
  }

  /** Equal apart from `last_seen`. */
  ghost predicate SameApartFromLastSeen(t: Table, u: Table) {
    && t.keyed.Keys == u.keyed.Keys
    && (forall k :: k in t.keyed ==> Blur(t.keyed[k]) == Blur(u.keyed[k]))
    && BlurRows(t.loose) == BlurRows(u.loose)
  }

  lemma {:induction false} NothingToExcept(rows: seq<Row>, keys: set<Key>)
    requires forall r :: r in rows ==> r.key !in keys
    ensures Except(rows, keys) == rows
  {
    if rows == [] {
    } else {
      assert rows[0] in rows && forall r :: r in rows[1..] ==> r in rows;
      NothingToExcept(rows[1..], keys);
      HeadPlusTail(rows);
    }
  }

  lemma {:induction false} NoLoose(cs: seq<Link>, recv: int)
    ensures LooseOf(cs, recv) == [] <==> forall l :: l in cs ==> l.kind.Some?
    decreases |cs|
  {
    if cs == [] {
    } else {
      var n := |cs| - 1;
      NoLoose(cs[..n], recv);
      assert cs[n] in cs;
      assert forall l :: l in cs <==> l in cs[..n] || l == cs[n];
    }
  }

  /** Running the same cycle again changes nothing but `last_seen`, if and only if every usable link has a kind: each
      rerun adds another row for a link without one, because the unique index never matches a NULL. */
  lemma IdempotentIffKindsKnown(t: Table, links: seq<Link>, nodes: set<Nid>, recv: int, recv': int)
    requires KindsOk(t) && Ordered(t)
    ensures var once := Replaced(t, links, nodes, recv);
      SameApartFromLastSeen(Replaced(once, links, nodes, recv'), once)
      <==> forall l :: l in Canons(links) ==> l.kind.Some?
  {
    var cs := Canons(links);
    var once := Replaced(t, links, nodes, recv);
    var twice := Replaced(once, links, nodes, recv');
    KeysAfter(t, links, nodes, recv);
    KeysAfter(once, links, nodes, recv');
    assert Stale(once, nodes - {0}, Keys(cs)) == {};
    UpsertedLoose(Deleted(once, {}), cs, recv');
    ExceptNothing(once.loose);
    NoLoose(cs, recv');
    forall k | k in twice.keyed || k in once.keyed
      ensures k in once.keyed && k in twice.keyed && Blur(twice.keyed[k]) == Blur(once.keyed[k])
    {
      SameBodyTwice(t, links, nodes, recv, recv', k);
    }
    if LooseOf(cs, recv') == [] {
      PlusEmpty(once.loose);
    } else {
      assert |BlurRows(twice.loose)| > |BlurRows(once.loose)|;
    }
  }

  lemma SameBodyTwice(t: Table, links: seq<Link>, nodes: set<Nid>, recv: int, recv': int, k: Key)
    requires KindsOk(t) && Ordered(t)
    requires var once := Replaced(t, links, nodes, recv);
             k in once.keyed || k in Replaced(once, links, nodes, recv').keyed
    ensures var once := Replaced(t, links, nodes, recv);
      var twice := Replaced(once, links, nodes, recv');
      k in once.keyed && k in twice.keyed && Blur(twice.keyed[k]) == Blur(once.keyed[k])
  {
    var once := Replaced(t, links, nodes, recv);
    KeysAfter(t, links, nodes, recv);
    KeysAfter(once, links, nodes, recv');
    assert k.kind.Some?;
    ReplacedAt(t, links, nodes, recv, k);
    ReplacedAt(once, links, nodes, recv', k);
  }

  /** One link without a kind, stored twice by two equal cycles. */
  lemma KindlessLinkIsDuplicated(a: Nid, b: Nid, facts: Facts, recv: int, recv': int)
    requires 0 < a < b
    ensures var links := [Link(a, b, None, UNKNOWN, facts)];
      var once := Replaced(Table(map[], []), links, {a, b}, recv);
      && once.loose == [Row(Key(a, b, None), Body(UNKNOWN, facts, recv, recv))]
      && Replaced(once, links, {a, b}, recv').loose == once.loose
          + [Row(Key(a, b, None), Body(UNKNOWN, facts, recv', recv'))]
  {
    var l := Link(a, b, None, UNKNOWN, facts);
    assert Canons([l]) == [l] by { assert [l][1..] == []; }
    assert Keys([l]) == {Key(a, b, None)} by {
      KeysPlus([], l);
      assert [] + [l] == [l];
    }
    var empty := Table(map[], []);
    var once := Replaced(empty, [l], {a, b}, recv);
    OneLoose(l, recv);
    OneLoose(l, recv');
    UpsertedLoose(Deleted(empty, Stale(empty, {a, b} - {0}, {Key(a, b, None)})), [l], recv);
    ExceptNothing(once.loose);
    KeyedKinds(Deleted(empty, Stale(empty, {a, b} - {0}, {Key(a, b, None)})), [l], recv);
    NothingToExcept(once.loose, Stale(once, {a, b} - {0}, {Key(a, b, None)}));
    UpsertedLoose(Deleted(once, Stale(once, {a, b} - {0}, {Key(a, b, None)})), [l], recv');
  }

  lemma OneLoose(l: Link, recv: int)
    requires l.kind.None?
    ensures LooseOf([l], recv) == [Row(KeyOf(l), Body(l.ports, l.facts, recv, recv))]
  {
    assert [l][..0] == [];
    assert LooseOf([], recv) == [];
  }
}
