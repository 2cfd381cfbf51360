/** LAN party, part one: the input lists the links between computers, one
    `a-b` per line. Every name is interned to an index in order of first
    appearance, the neighbours of every computer are collected and sorted,
    and every triangle of mutually linked computers with at least one name
    starting with 't' is recorded once, as its names in ascending order. */
module Day23a {
  import opened Common
  import opened Text

  // ---------------------------------------------------------------- names

  /** One compare-and-swap. */
  function Sort2(a: string, b: string): (r: (string, string))
    ensures r == (a, b) || r == (b, a)
    ensures NameLe(r.0, r.1) && NameLe(a, r.1) && NameLe(b, r.1)
  {
    NameLeTotal(a, b);
    NameLeTotal(a, a);
    NameLeTotal(b, b);
    if NameLe(a, b) then (a, b) else (b, a)
  }

  /** Three compare-and-swaps only rearrange the names they are given. */
  lemma SwapsKeepNames<T>(t: seq<T>, a: T, b: T, b': T, c: T, a': T, b'': T)
    requires |t| == 3
    requires (a == t[0] && b == t[1]) || (a == t[1] && b == t[0])
    requires (b' == b && c == t[2]) || (b' == t[2] && c == b)
    requires (a' == a && b'' == b') || (a' == b' && b'' == a)
    ensures multiset([a', b'', c]) == multiset(t)
  {
    assert t == [t[0], t[1], t[2]];
  }

  /** The `sort` of a three-name array: compare-and-swap the first pair,
      the last pair, then the first pair again. */
  function Sort3(t: seq<string>): (r: seq<string>)
    requires |t| == 3
    ensures |r| == 3
  {
    var (a, b) := Sort2(t[0], t[1]);
    var (b', c) := Sort2(b, t[2]);
    var (a', b'') := Sort2(a, b');
    [a', b'', c]
  }

  /** The sorted array holds the same names, in ascending order. */
  lemma Sort3Sorts(t: seq<string>)
    requires |t| == 3
    ensures multiset(Sort3(t)) == multiset(t)
    ensures NameLe(Sort3(t)[0], Sort3(t)[1]) && NameLe(Sort3(t)[1], Sort3(t)[2])
  {
    var (a, b) := Sort2(t[0], t[1]);
    var (b', c) := Sort2(b, t[2]);
    var (a', b'') := Sort2(a, b');
    assert Sort3(t) == [a', b'', c];
    NameLeTransitive(a, b, c);
    SwapsKeepNames(t, a, b, b', c, a', b'');
  }

  /** The sorted array depends only on the three names, not on the order in
      which they were found: two triples of the same names sort alike. */
  lemma Sort3Canonical(s: seq<string>, t: seq<string>)
    requires |s| == 3 && |t| == 3 && multiset(s) == multiset(t)
    ensures Sort3(s) == Sort3(t)
  {
    Sort3Sorts(s);
    Sort3Sorts(t);
    SortedSame(Sort3(s), Sort3(t));
  }

  /** The first and the last of three ascending names bound every one of
      them. */
  lemma Bounded(u: seq<string>, a: string)
    requires |u| == 3 && NameLe(u[0], u[1]) && NameLe(u[1], u[2]) && a in u
    ensures NameLe(u[0], a) && NameLe(a, u[2])
  {
    NameLeTransitive(u[0], u[1], u[2]);
    if a == u[0] {
      NameLeTotal(u[0], u[0]);
    } else if a == u[2] {
      NameLeTotal(u[2], u[2]);
    }
  }

  /** Two ascending triples of the same names are equal. */
  lemma SortedSame(x: seq<string>, y: seq<string>)
    requires |x| == 3 && |y| == 3 && multiset(x) == multiset(y)
    requires NameLe(x[0], x[1]) && NameLe(x[1], x[2]) && NameLe(y[0], y[1]) && NameLe(y[1], y[2])
    ensures x == y
  {
    assert x[0] in multiset(y) && y[0] in multiset(x) && x[2] in multiset(y) && y[2] in multiset(x);
    Bounded(y, x[0]);
    Bounded(x, y[0]);
    NameLeAntisymmetric(x[0], y[0]);
    Bounded(y, x[2]);
    Bounded(x, y[2]);
    NameLeAntisymmetric(x[2], y[2]);
    MiddleSame(x, y);
  }

  /** Two triples of the same elements that agree at both ends agree in
      the middle too. */
  lemma MiddleSame<T>(x: seq<T>, y: seq<T>)
    requires |x| == 3 && |y| == 3 && multiset(x) == multiset(y) && x[0] == y[0] && x[2] == y[2]
    ensures x == y
  {
    assert x == [x[0]] + [x[1]] + [x[2]] && y == [y[0]] + [y[1]] + [y[2]];
    assert multiset(x) == multiset{x[0]} + multiset{x[1]} + multiset{x[2]};
    assert multiset(y) == multiset{x[0]} + multiset{y[1]} + multiset{x[2]};
    var rest := multiset{x[0]} + multiset{x[2]};
    assert multiset(x)[x[1]] == rest[x[1]] + 1;
    assert multiset(y)[x[1]] == rest[x[1]] + (if y[1] == x[1] then 1 else 0);
  }

  predicate StartsWithT(name: string) { name != [] && name[0] == 't' }

  // ---------------------------------------------------------------- input

  /** One line: the two names around its only '-'. */
  function ParseLink(line: string): (r: Result<(string, string)>)
    ensures r.Ok? <==> exists a, b :: line == a + "-" + b && '-' !in a && '-' !in b
    ensures r.Ok? ==> line == r.value.0 + "-" + r.value.1
  {
    match SplitPair(line, '-')
    case None =>
      assert forall a, b :: line == a + "-" + b && '-' !in a && '-' !in b ==> false by {
        forall a, b | line == a + "-" + b && '-' !in a && '-' !in b ensures false {
          SplitPairShape(line, '-', a, b);
        }
      }
      Err("expected exactly one - in input, got " + line)
    case Some((a, b)) =>
      SplitPairShape(line, '-', a, b);
      Ok((a, b))
  }

  /** All links, or the error of the first line that is not one. */
  function ParseLinks(rows: seq<string>): (r: Result<seq<(string, string)>>)
    ensures r.Ok? ==> |r.value| == |rows| && forall i :: 0 <= i < |rows| ==> ParseLink(rows[i]) == Ok(r.value[i])
    ensures r.Err? ==> exists i :: 0 <= i < |rows| && ParseLink(rows[i]) == Err(r.msg)
  {
    if rows == [] then Ok([])
    else
      var first :- ParseLink(rows[0]);
      var rest :- ParseLinks(rows[1..]);
      assert forall i :: 1 <= i < |rows| ==> rows[i] == rows[1..][i - 1];
      Ok([first] + rest)
  }

  // ------------------------------------------------------------ interning

  /** The names in order of first appearance, each link read left name first. */
  function Appearance(links: seq<(string, string)>): (r: seq<string>)
  {
    if links == [] then []
    else
      var before := Appearance(links[..|links| - 1]);
      var (a, b) := links[|links| - 1];
      AddName(AddName(before, a), b)
  }

  function AddName(names: seq<string>, x: string): seq<string>
  {
    if x in names then names else names + [x]
  }

  /** The links both ways round. */
  function Edges(links: seq<(string, string)>): (r: set<(string, string)>)
    ensures forall a, b :: (a, b) in r ==> (b, a) in r
  {
    if links == [] then {}
    else
      var (a, b) := links[|links| - 1];
      Edges(links[..|links| - 1]) + {(a, b), (b, a)}
  }

  predicate Distinct(names: seq<string>)
  {
    forall i, j :: 0 <= i < j < |names| ==> names[i] != names[j]
  }

  /** The adjacency the source builds: for every index the set of indices
      linked to it. */
  predicate Adjacency(names: seq<string>, adj: seq<set<nat>>, links: seq<(string, string)>)
  {
    |adj| == |names| &&
    forall i, j :: 0 <= i < |names| && 0 <= j < |names| ==> (j in adj[i] <==> (names[i], names[j]) in Edges(links))
  }

  predicate WithinNames(names: seq<string>, adj: seq<set<nat>>)
  {
    |adj| == |names| && forall i, j :: 0 <= i < |adj| && j in adj[i] ==> j < |names|
  }

  /** `index_to_name` and `name_to_index` are inverse and cover the same names. */
  ghost predicate Inverse(index: map<string, nat>, names: seq<string>)
  {
    (forall x :: x in index <==> x in names) &&
    forall i :: 0 <= i < |names| ==> names[i] in index && index[names[i]] == i
  }

  /** The `entry(..).or_insert_with(..)` step: the name's index, a new one
      at the end when the name is new. */
  method Intern(x: string, index: map<string, nat>, names: seq<string>, adj: seq<set<nat>>)
    returns (i: nat, index': map<string, nat>, names': seq<string>, adj': seq<set<nat>>)
    requires Inverse(index, names) && Distinct(names) && WithinNames(names, adj)
    ensures names' == AddName(names, x) && Inverse(index', names') && Distinct(names')
    ensures i < |names'| && names'[i] == x && |names| <= |names'| && names'[..|names|] == names
    ensures WithinNames(names', adj') && adj'[..|adj|] == adj
    ensures forall k :: |adj| <= k < |adj'| ==> adj'[k] == {}
  {
    if x in index {
      i := index[x];
      return i, index, names, adj;
    }
    i := |names|;
    index' := index[x := i];
    names' := names + [x];
    adj' := adj + [{}];
  }

  /** The interning loop of `do_it`: names in order of first appearance,
      and the links recorded both ways in the neighbour sets. */
  method BuildGraph(links: seq<(string, string)>)
    returns (index: map<string, nat>, names: seq<string>, adj: seq<set<nat>>)
    ensures names == Appearance(links) && Inverse(index, names) && Distinct(names)
    ensures WithinNames(names, adj) && Adjacency(names, adj, links)
  {
    index, names, adj := map[], [], [];
    for k := 0 to |links|
      invariant names == Appearance(links[..k]) && Inverse(index, names) && Distinct(names)
      invariant WithinNames(names, adj) && Adjacency(names, adj, links[..k])
    {
      assert links[..k + 1][..k] == links[..k];
      index, names, adj := AddLink(links[..k + 1], index, names, adj);
    }
    assert links[..|links|] == links;
  }

  /** One line of the interning loop: intern both names, then record the
      link in both neighbour sets. */
  method AddLink(links: seq<(string, string)>, index: map<string, nat>, names: seq<string>, adj: seq<set<nat>>)
    returns (index': map<string, nat>, names': seq<string>, adj': seq<set<nat>>)
    requires links != [] && names == Appearance(links[..|links| - 1]) && Inverse(index, names) && Distinct(names)
    requires WithinNames(names, adj) && Adjacency(names, adj, links[..|links| - 1])
    ensures names' == Appearance(links) && Inverse(index', names') && Distinct(names')
    ensures WithinNames(names', adj') && Adjacency(names', adj', links)
  {
    var (a, b) := links[|links| - 1];
    var ai, bi, index1, names1, adj1, adj2;
    ai, index1, names1, adj1 := Intern(a, index, names, adj);
    bi, index', names', adj2 := Intern(b, index1, names1, adj1);
    PrefixOfPrefix(names, names1, names');
    assert names'[ai] == names1[ai];
    GrownTwice(adj, adj1, adj2);
    adj' := Connect(adj2, ai, bi);
    LinkAdded(links, names, adj, names', adj2, adj', ai, bi);
  }

  lemma PrefixOfPrefix<T>(s: seq<T>, t: seq<T>, u: seq<T>)
    requires |s| <= |t| <= |u| && t[..|s|] == s && u[..|t|] == t
    ensures u[..|s|] == s && forall k :: 0 <= k < |t| ==> u[k] == t[k]
  {
    forall k | 0 <= k < |t| ensures u[k] == t[k] {
      assert u[..|t|][k] == u[k];
    }
  }

  /** Two rounds of pushing empty sets are one. */
  lemma GrownTwice(adj: seq<set<nat>>, adj1: seq<set<nat>>, adj2: seq<set<nat>>)
    requires |adj| <= |adj1| <= |adj2| && adj1[..|adj|] == adj && adj2[..|adj1|] == adj1
    requires forall k :: |adj| <= k < |adj1| ==> adj1[k] == {}
    requires forall k :: |adj1| <= k < |adj2| ==> adj2[k] == {}
    ensures adj2[..|adj|] == adj && forall k :: |adj| <= k < |adj2| ==> adj2[k] == {}
  {
    forall k | |adj| <= k < |adj1| ensures adj2[k] == {} {
      assert adj2[k] == adj2[..|adj1|][k];
    }
  }

  /** `connections[a_i].insert(b_i)` then `connections[b_i].insert(a_i)`. */
  method Connect(adj: seq<set<nat>>, ai: nat, bi: nat) returns (adj': seq<set<nat>>)
    requires ai < |adj| && bi < |adj|
    ensures |adj'| == |adj|
    ensures forall k :: 0 <= k < |adj| ==>
      adj'[k] == adj[k] + (if k == ai then {bi} else {}) + (if k == bi then {ai} else {})
  {
    adj' := adj[ai := adj[ai] + {bi}];
    adj' := adj'[bi := adj'[bi] + {ai}];
  }

  /** One link: new names come with empty sets, then each end joins the
      other's set. */
  lemma LinkAdded(links: seq<(string, string)>, oldNames: seq<string>, oldAdj: seq<set<nat>>,
                  names: seq<string>, grown: seq<set<nat>>, adj: seq<set<nat>>, ai: nat, bi: nat)
    requires links != [] && Distinct(names)
    requires oldNames == Appearance(links[..|links| - 1])
    requires Adjacency(oldNames, oldAdj, links[..|links| - 1]) && WithinNames(oldNames, oldAdj)
    requires |oldNames| <= |names| && names[..|oldNames|] == oldNames
    requires WithinNames(names, grown) && grown[..|oldAdj|] == oldAdj
    requires forall k :: |oldAdj| <= k < |grown| ==> grown[k] == {}
    requires ai < |names| && bi < |names| && (names[ai], names[bi]) == links[|links| - 1]
    requires |adj| == |grown| && forall k :: 0 <= k < |grown| ==>
      adj[k] == grown[k] + (if k == ai then {bi} else {}) + (if k == bi then {ai} else {})
    ensures WithinNames(names, adj) && Adjacency(names, adj, links)
  {
    GrownShape(oldAdj, grown, adj, ai, bi);
    LinkPairs(links, oldNames, oldAdj, names, adj, ai, bi);
  }

  lemma GrownShape(oldAdj: seq<set<nat>>, grown: seq<set<nat>>, adj: seq<set<nat>>, ai: nat, bi: nat)
    requires |oldAdj| <= |grown| && grown[..|oldAdj|] == oldAdj
    requires forall k :: |oldAdj| <= k < |grown| ==> grown[k] == {}
    requires |adj| == |grown| && forall k :: 0 <= k < |grown| ==>
      adj[k] == grown[k] + (if k == ai then {bi} else {}) + (if k == bi then {ai} else {})
    ensures forall k :: 0 <= k < |adj| ==>
      adj[k] == (if k < |oldAdj| then oldAdj[k] else {}) + (if k == ai then {bi} else {}) + (if k == bi then {ai} else {})
  {
    forall k | 0 <= k < |adj|
      ensures adj[k] == (if k < |oldAdj| then oldAdj[k] else {}) + (if k == ai then {bi} else {}) + (if k == bi then {ai} else {})
    {
      if k < |oldAdj| {
        assert grown[k] == oldAdj[k];
      }
    }
  }

  lemma LinkPairs(links: seq<(string, string)>, oldNames: seq<string>, oldAdj: seq<set<nat>>,
                  names: seq<string>, adj: seq<set<nat>>, ai: nat, bi: nat)
    requires links != [] && Distinct(names)
    requires oldNames == Appearance(links[..|links| - 1])
    requires Adjacency(oldNames, oldAdj, links[..|links| - 1]) && WithinNames(oldNames, oldAdj)
    requires |oldNames| <= |names| && names[..|oldNames|] == oldNames && |adj| == |names|
    requires ai < |names| && bi < |names| && (names[ai], names[bi]) == links[|links| - 1]
    requires forall k :: 0 <= k < |adj| ==>
      adj[k] == (if k < |oldAdj| then oldAdj[k] else {}) + (if k == ai then {bi} else {}) + (if k == bi then {ai} else {})
    ensures WithinNames(names, adj) && Adjacency(names, adj, links)
  {
    var init := links[..|links| - 1];
    forall i, j | 0 <= i < |names| && 0 <= j < |names|
      ensures j in adj[i] <==> (names[i], names[j]) in Edges(links)
    {
      var linkedBefore := i < |oldNames| && j < |oldNames| && j in oldAdj[i];
      LinkedBefore(init, oldNames, oldAdj, names, i, j);
      LinkPair(names, adj[i], oldAdj, ai, bi, i, j, linkedBefore, (names[i], names[j]) in Edges(init));
    }
  }

  /** Two of the names were linked before the last link exactly when the
      earlier adjacency says so. */
  lemma LinkedBefore(init: seq<(string, string)>, oldNames: seq<string>, oldAdj: seq<set<nat>>, names: seq<string>, i: nat, j: nat)
    requires oldNames == Appearance(init) && Adjacency(oldNames, oldAdj, init)
    requires Distinct(names) && |oldNames| <= |names| && names[..|oldNames|] == oldNames && i < |names| && j < |names|
    ensures (i < |oldNames| && j < |oldNames| && j in oldAdj[i]) <==> (names[i], names[j]) in Edges(init)
  {
    if i < |oldNames| && j < |oldNames| {
      assert names[i] == oldNames[i] && names[j] == oldNames[j];
    } else if (names[i], names[j]) in Edges(init) {
      EdgesInAppearance(init, names[i], names[j]);
      assert false;
    }
  }

  /** One pair of indices after a link: linked before, or the new link
      either way round. */
  lemma LinkPair(names: seq<string>, adj_i: set<nat>, oldAdj: seq<set<nat>>, ai: nat, bi: nat, i: nat, j: nat,
                 wasLinked: bool, wasEdge: bool)
    requires Distinct(names) && ai < |names| && bi < |names| && i < |names| && j < |names|
    requires adj_i == (if i < |oldAdj| then oldAdj[i] else {}) + (if i == ai then {bi} else {}) + (if i == bi then {ai} else {})
    requires wasLinked == (i < |oldAdj| && j in oldAdj[i]) && wasLinked == wasEdge
    ensures j in adj_i <==> wasEdge || (names[i], names[j]) == (names[ai], names[bi]) || (names[i], names[j]) == (names[bi], names[ai])
  {
  }

  /** Both ends of a recorded link are among the names. */
  lemma {:induction false} EdgesInAppearance(links: seq<(string, string)>, x: string, y: string)
    requires (x, y) in Edges(links)
    ensures x in Appearance(links) && y in Appearance(links)
  {
    var init := links[..|links| - 1];
    if (x, y) in Edges(init) {
      EdgesInAppearance(init, x, y);
    }
  }

  // ------------------------------------------------------- sorted lists

  /** The members of `s` below `n` in ascending order: the neighbour list
      after `sort`. */
  function Ascending(s: set<nat>, n: nat): (r: seq<nat>)
    ensures forall a, b :: 0 <= a < b < |r| ==> r[a] < r[b]
    ensures forall k :: 0 <= k < |r| ==> r[k] in s && r[k] < n
    ensures forall x :: x in s && x < n ==> x in r
  {
    if n == 0 then []
    else
      var r := Ascending(s, n - 1);
      if n - 1 in s then r + [n - 1] else r
  }

  /** Every entry of every list is an index of a name. */
  predicate ListsWithin(names: seq<string>, adj: seq<set<nat>>, lists: seq<seq<nat>>)
  {
    |adj| == |names| && |lists| == |adj| &&
    forall x, k :: 0 <= x < |lists| && 0 <= k < |lists[x]| ==> lists[x][k] < |names|
  }

  /** `lists[x]` is the sorted neighbour list of `x`. */
  predicate SortedLists(names: seq<string>, adj: seq<set<nat>>, lists: seq<seq<nat>>)
  {
    WithinNames(names, adj) && ListsWithin(names, adj, lists) &&
    (forall x, k :: 0 <= x < |lists| && 0 <= k < |lists[x]| ==> lists[x][k] in adj[x]) &&
    (forall x, a, b :: 0 <= x < |lists| && 0 <= a < b < |lists[x]| ==> lists[x][a] < lists[x][b]) &&
    (forall x, j :: 0 <= x < |lists| && j in adj[x] ==> j in lists[x])
  }

  /** The neighbour sets turned into sorted vectors. */
  function NeighbourLists(names: seq<string>, adj: seq<set<nat>>): (lists: seq<seq<nat>>)
    requires WithinNames(names, adj)
    ensures ListsWithin(names, adj, lists)
  {
    seq(|adj|, i requires 0 <= i < |adj| => Ascending(adj[i], |names|))
  }

  /** Every list is the ascending list of exactly the neighbours. */
  lemma NeighbourListsSorted(names: seq<string>, adj: seq<set<nat>>)
    requires WithinNames(names, adj)
    ensures SortedLists(names, adj, NeighbourLists(names, adj))
  {
  }

  // ----------------------------------------------------------- triangles

  /** The sorted names of a triple of indices. */
  function Key(names: seq<string>, i1: nat, i2: nat, i3: nat): seq<string>
    requires i1 < |names| && i2 < |names| && i3 < |names|
  {
    Sort3([names[i1], names[i2], names[i3]])
  }

  /** The test of the innermost loop: the two neighbours are linked too,
      and some name starts with 't'. */
  predicate Accept(names: seq<string>, adj: seq<set<nat>>, i1: nat, i2: nat, i3: nat)
    requires i1 < |names| && i2 < |names| && i3 < |names| && |adj| == |names|
  {
    (StartsWithT(names[i1]) || StartsWithT(names[i2]) || StartsWithT(names[i3])) && i3 in adj[i2]
  }

  /** Every triangle the source records: distinct neighbours `i2`, `i3` of
      `i1` that are linked to each other, with a name starting with 't'. */
  ghost function Triangles(names: seq<string>, adj: seq<set<nat>>): set<seq<string>>
    requires WithinNames(names, adj)
  {
    set i1, i2, i3 | 0 <= i1 < |adj| && i2 in adj[i1] && i3 in adj[i1] && i2 != i3 && Accept(names, adj, i1, i2, i3)
      :: Key(names, i1, i2, i3)
  }

  /** A triple of indices of names. */
  predicate Indexes(names: seq<string>, t: (nat, nat, nat))
  {
    t.0 < |names| && t.1 < |names| && t.2 < |names|
  }

  /** The keys of a set of index triples. */
  ghost function KeysOf(names: seq<string>, triples: set<(nat, nat, nat)>): set<seq<string>>
    requires forall t :: t in triples ==> Indexes(names, t)
  {
    set t | t in triples && Indexes(names, t) :: Key(names, t.0, t.1, t.2)
  }

  lemma KeysOfAdd(names: seq<string>, triples: set<(nat, nat, nat)>, extra: set<(nat, nat, nat)>, t: (nat, nat, nat))
    requires forall u :: u in triples ==> Indexes(names, u)
    requires Indexes(names, t) && (extra == {} || extra == {t})
    ensures KeysOf(names, triples + extra) == KeysOf(names, triples) + (if extra == {} then {} else {Key(names, t.0, t.1, t.2)})
  {
    var lhs, rhs := KeysOf(names, triples + extra), KeysOf(names, triples) + (if extra == {} then {} else {Key(names, t.0, t.1, t.2)});
    forall k | k in lhs ensures k in rhs {
      var u :| u in triples + extra && Indexes(names, u) && k == Key(names, u.0, u.1, u.2);
      if u in triples {
        assert k in KeysOf(names, triples);
      }
    }
    forall k | k in rhs ensures k in lhs {
      if k in KeysOf(names, triples) {
        var u :| u in triples && Indexes(names, u) && k == Key(names, u.0, u.1, u.2);
        assert u in triples + extra;
      } else {
        assert t in triples + extra;
      }
    }
  }

  /** The triangles as index triples with the neighbours in list order. */
  ghost function Ordered(names: seq<string>, adj: seq<set<nat>>): set<(nat, nat, nat)>
    requires WithinNames(names, adj)
    ensures forall t :: t in Ordered(names, adj) ==> Indexes(names, t)
  {
    set i1, i2, i3 | 0 <= i1 < |adj| && i2 in adj[i1] && i3 in adj[i1] && i2 < i3 && Accept(names, adj, i1, i2, i3)
      :: (i1, i2, i3)
  }

  /** Each triangle has one ordered triple among its keys: the keys of the
      ordered triples are all the triangles. */
  lemma OrderedKeys(names: seq<string>, adj: seq<set<nat>>)
    requires WithinNames(names, adj)
    requires forall i, j :: 0 <= i < |adj| && j in adj[i] ==> i in adj[j]
    ensures KeysOf(names, Ordered(names, adj)) == Triangles(names, adj)
  {
    forall key | key in Triangles(names, adj) ensures key in KeysOf(names, Ordered(names, adj)) {
      var i1, i2, i3 :| 0 <= i1 < |adj| && i2 in adj[i1] && i3 in adj[i1] && i2 != i3 &&
        Accept(names, adj, i1, i2, i3) && key == Key(names, i1, i2, i3);
      var t := TriangleOrdered(names, adj, i1, i2, i3);
      assert Indexes(names, t);
    }
  }

  /** A triangle's ordered triple: its neighbours swapped when out of
      order, which leaves its key unchanged. */
  lemma TriangleOrdered(names: seq<string>, adj: seq<set<nat>>, i1: nat, i2: nat, i3: nat) returns (t: (nat, nat, nat))
    requires WithinNames(names, adj)
    requires forall i, j :: 0 <= i < |adj| && j in adj[i] ==> i in adj[j]
    requires 0 <= i1 < |adj| && i2 in adj[i1] && i3 in adj[i1] && i2 != i3 && Accept(names, adj, i1, i2, i3)
    ensures t in Ordered(names, adj) && Key(names, t.0, t.1, t.2) == Key(names, i1, i2, i3)
  {
    if i2 < i3 {
      t := (i1, i2, i3);
    } else {
      assert i2 in adj[i3];
      t := (i1, i3, i2);
      Sort3Canonical([names[i1], names[i3], names[i2]], [names[i1], names[i2], names[i3]]);
    }
  }

  /** The triples the innermost loop accepts for slot `a` of the list of
      `x`, partners taken from slots `a + 1` up to `b - 1`. */
  ghost function Pairs(names: seq<string>, adj: seq<set<nat>>, lists: seq<seq<nat>>, x: nat, a: nat, b: nat)
    : (r: set<(nat, nat, nat)>)
    requires ListsWithin(names, adj, lists) && x < |lists| && a < b <= |lists[x]|
    ensures forall t :: t in r ==> Indexes(names, t)
    decreases b
  {
    if b == a + 1 then {}
    else
      var l := lists[x];
      Pairs(names, adj, lists, x, a, b - 1) + (if Accept(names, adj, x, l[a], l[b - 1]) then {(x, l[a], l[b - 1])} else {})
  }

  /** The triples the two inner loops accept for the first `a` slots of `x`. */
  ghost function Row(names: seq<string>, adj: seq<set<nat>>, lists: seq<seq<nat>>, x: nat, a: nat)
    : (r: set<(nat, nat, nat)>)
    requires ListsWithin(names, adj, lists) && x < |lists| && a <= |lists[x]|
    ensures forall t :: t in r ==> Indexes(names, t)
  {
    if a == 0 then {} else Row(names, adj, lists, x, a - 1) + Pairs(names, adj, lists, x, a - 1, |lists[x]|)
  }

  /** The triples the three loops accept for the first `n` indices. */
  ghost function Rows(names: seq<string>, adj: seq<set<nat>>, lists: seq<seq<nat>>, n: nat)
    : (r: set<(nat, nat, nat)>)
    requires ListsWithin(names, adj, lists) && n <= |lists|
    ensures forall t :: t in r ==> Indexes(names, t)
  {
    if n == 0 then {} else Rows(names, adj, lists, n - 1) + Row(names, adj, lists, n - 1, |lists[n - 1]|)
  }

  /** An accepted triple comes from a partner slot of the range. */
  lemma {:induction false} PairsWitness(names: seq<string>, adj: seq<set<nat>>, lists: seq<seq<nat>>,
                                        x: nat, a: nat, b: nat, t: (nat, nat, nat)) returns (c: nat)
    requires ListsWithin(names, adj, lists) && x < |lists| && a < b <= |lists[x]|
    requires t in Pairs(names, adj, lists, x, a, b)
    ensures a < c < b && Accept(names, adj, x, lists[x][a], lists[x][c]) && t == (x, lists[x][a], lists[x][c])
    decreases b
  {
    if t in Pairs(names, adj, lists, x, a, b - 1) {
      c := PairsWitness(names, adj, lists, x, a, b - 1, t);
    } else {
      c := b - 1;
    }
  }

  /** Every accepted partner slot of the range is recorded. */
  lemma {:induction false} PairsComplete(names: seq<string>, adj: seq<set<nat>>, lists: seq<seq<nat>>,
                                         x: nat, a: nat, b: nat, c: nat)
    requires ListsWithin(names, adj, lists) && x < |lists| && a < c < b <= |lists[x]|
    requires Accept(names, adj, x, lists[x][a], lists[x][c])
    ensures (x, lists[x][a], lists[x][c]) in Pairs(names, adj, lists, x, a, b)
    decreases b
  {
    if c < b - 1 {
      PairsComplete(names, adj, lists, x, a, b - 1, c);
    }
  }

  lemma {:induction false} RowWitness(names: seq<string>, adj: seq<set<nat>>, lists: seq<seq<nat>>,
                                      x: nat, a: nat, t: (nat, nat, nat)) returns (p: nat, c: nat)
    requires ListsWithin(names, adj, lists) && x < |lists| && a <= |lists[x]|
    requires t in Row(names, adj, lists, x, a)
    ensures p < a && p < c < |lists[x]| && Accept(names, adj, x, lists[x][p], lists[x][c])
    ensures t == (x, lists[x][p], lists[x][c])
  {
    if t in Row(names, adj, lists, x, a - 1) {
      p, c := RowWitness(names, adj, lists, x, a - 1, t);
    } else {
      p := a - 1;
      c := PairsWitness(names, adj, lists, x, a - 1, |lists[x]|, t);
    }
  }

  lemma {:induction false} RowComplete(names: seq<string>, adj: seq<set<nat>>, lists: seq<seq<nat>>,
                                       x: nat, a: nat, p: nat, c: nat)
    requires ListsWithin(names, adj, lists) && x < |lists| && a <= |lists[x]| && p < a && p < c < |lists[x]|
    requires Accept(names, adj, x, lists[x][p], lists[x][c])
    ensures (x, lists[x][p], lists[x][c]) in Row(names, adj, lists, x, a)
  {
    if p < a - 1 {
      RowComplete(names, adj, lists, x, a - 1, p, c);
    } else {
      PairsComplete(names, adj, lists, x, p, |lists[x]|, c);
    }
  }

  lemma {:induction false} RowsWitness(names: seq<string>, adj: seq<set<nat>>, lists: seq<seq<nat>>,
                                       n: nat, t: (nat, nat, nat)) returns (x: nat, p: nat, c: nat)
    requires ListsWithin(names, adj, lists) && n <= |lists|
    requires t in Rows(names, adj, lists, n)
    ensures x < n && p < c < |lists[x]| && Accept(names, adj, x, lists[x][p], lists[x][c])
    ensures t == (x, lists[x][p], lists[x][c])
  {
    if t in Rows(names, adj, lists, n - 1) {
      x, p, c := RowsWitness(names, adj, lists, n - 1, t);
    } else {
      x := n - 1;
      p, c := RowWitness(names, adj, lists, x, |lists[x]|, t);
    }
  }

  lemma {:induction false} RowsComplete(names: seq<string>, adj: seq<set<nat>>, lists: seq<seq<nat>>,
                                        n: nat, x: nat, p: nat, c: nat)
    requires ListsWithin(names, adj, lists) && n <= |lists| && x < n && p < c < |lists[x]|
    requires Accept(names, adj, x, lists[x][p], lists[x][c])
    ensures (x, lists[x][p], lists[x][c]) in Rows(names, adj, lists, n)
  {
    if x < n - 1 {
      RowsComplete(names, adj, lists, n - 1, x, p, c);
    } else {
      RowComplete(names, adj, lists, x, |lists[x]|, p, c);
    }
  }

  /** Once every index is passed, the accepted triples are the ordered
      triangles: a triangle's neighbours sit in list order in the sorted
      list. */
  lemma RowsAreOrdered(names: seq<string>, adj: seq<set<nat>>, lists: seq<seq<nat>>)
    requires SortedLists(names, adj, lists)
    ensures Rows(names, adj, lists, |lists|) == Ordered(names, adj)
  {
    forall t | t in Rows(names, adj, lists, |lists|) ensures t in Ordered(names, adj) {
      var x, p, c := RowsWitness(names, adj, lists, |lists|, t);
      var l := lists[x];
      assert l[p] < l[c] && l[p] in adj[x] && l[c] in adj[x];
    }
    forall t | t in Ordered(names, adj) ensures t in Rows(names, adj, lists, |lists|) {
      var (i1, i2, i3) := t;
      var l := lists[i1];
      assert i2 in l && i3 in l;
      var p :| 0 <= p < |l| && l[p] == i2;
      var q :| 0 <= q < |l| && l[q] == i3;
      assert p < q;
      RowsComplete(names, adj, lists, |lists|, i1, p, q);
    }
  }

  /** One step of the innermost loop adds the key of its triple when the
      triple is accepted. */
  lemma PairsStep(names: seq<string>, adj: seq<set<nat>>, lists: seq<seq<nat>>, before: set<(nat, nat, nat)>,
                  x: nat, a: nat, b: nat)
    requires ListsWithin(names, adj, lists) && x < |lists| && a < b < |lists[x]|
    requires forall t :: t in before ==> Indexes(names, t)
    ensures var l := lists[x];
      KeysOf(names, before + Pairs(names, adj, lists, x, a, b + 1)) ==
      KeysOf(names, before + Pairs(names, adj, lists, x, a, b)) +
      (if Accept(names, adj, x, l[a], l[b]) then {Key(names, x, l[a], l[b])} else {})
  {
    var l := lists[x];
    var extra: set<(nat, nat, nat)> := if Accept(names, adj, x, l[a], l[b]) then {(x, l[a], l[b])} else {};
    assert before + Pairs(names, adj, lists, x, a, b + 1) == before + Pairs(names, adj, lists, x, a, b) + extra;
    KeysOfAdd(names, before + Pairs(names, adj, lists, x, a, b), extra, (x, l[a], l[b]));
  }

  /** The triangle loops of `do_it` over the sorted neighbour lists. */
  method CountTriangles(names: seq<string>, adj: seq<set<nat>>) returns (count: nat)
    requires WithinNames(names, adj)
    requires forall i, j :: 0 <= i < |adj| && j in adj[i] ==> i in adj[j]
    ensures count == |Triangles(names, adj)|
  {
    var lists := NeighbourLists(names, adj);
    var triplets: set<seq<string>> := {};
    for i1 := 0 to |lists|
      invariant triplets == KeysOf(names, Rows(names, adj, lists, i1))
    {
      triplets := RecordRow(names, adj, lists, i1, triplets);
    }
    NeighbourListsSorted(names, adj);
    RowsAreOrdered(names, adj, lists);
    OrderedKeys(names, adj);
    count := |triplets|;
  }

  /** The two inner loops for one index `i1`: every pair of slots of its
      list, in order. */
  method RecordRow(names: seq<string>, adj: seq<set<nat>>, lists: seq<seq<nat>>, i1: nat, triplets: set<seq<string>>)
    returns (triplets': set<seq<string>>)
    requires ListsWithin(names, adj, lists) && i1 < |lists|
    requires triplets == KeysOf(names, Rows(names, adj, lists, i1))
    ensures triplets' == KeysOf(names, Rows(names, adj, lists, i1 + 1))
  {
    var list := lists[i1];
    triplets' := triplets;
    assert Rows(names, adj, lists, i1) + Row(names, adj, lists, i1, 0) == Rows(names, adj, lists, i1);
    for j2 := 0 to |list|
      invariant triplets' == KeysOf(names, Rows(names, adj, lists, i1) + Row(names, adj, lists, i1, j2))
    {
      ghost var before := Rows(names, adj, lists, i1) + Row(names, adj, lists, i1, j2);
      triplets' := RecordPairs(names, adj, lists, before, i1, j2, triplets');
    }
  }

  /** The innermost loop for slot `j2` of the list of `i1`: every later slot. */
  method RecordPairs(names: seq<string>, adj: seq<set<nat>>, lists: seq<seq<nat>>, ghost before: set<(nat, nat, nat)>,
                     i1: nat, j2: nat, triplets: set<seq<string>>)
    returns (triplets': set<seq<string>>)
    requires ListsWithin(names, adj, lists) && i1 < |lists| && j2 < |lists[i1]|
    requires forall t :: t in before ==> Indexes(names, t)
    requires triplets == KeysOf(names, before)
    ensures triplets' == KeysOf(names, before + Pairs(names, adj, lists, i1, j2, |lists[i1]|))
  {
    var list := lists[i1];
    triplets' := triplets;
    assert before + Pairs(names, adj, lists, i1, j2, j2 + 1) == before;
    for j3 := j2 + 1 to |list|
      invariant triplets' == KeysOf(names, before + Pairs(names, adj, lists, i1, j2, j3))
    {
      var i2, i3 := list[j2], list[j3];
      ghost var next := KeysOf(names, before + Pairs(names, adj, lists, i1, j2, j3 + 1));
      PairsStep(names, adj, lists, before, i1, j2, j3);
      if (StartsWithT(names[i1]) || StartsWithT(names[i2]) || StartsWithT(names[i3])) && i3 in adj[i2] {
        assert next == triplets' + {Key(names, i1, i2, i3)};
        triplets' := triplets' + {Sort3([names[i1], names[i2], names[i3]])};
      } else {
        assert next == triplets';
      }
    }
  }

  /** The neighbour sets the links define over their names. */
  ghost function AdjacencyOf(links: seq<(string, string)>): (adj: seq<set<nat>>)
    ensures WithinNames(Appearance(links), adj) && Adjacency(Appearance(links), adj, links)
  {
    var names := Appearance(links);
    seq(|names|, i requires 0 <= i < |names| => set j: nat | j < |names| && (names[i], names[j]) in Edges(links))
  }

  /** The adjacency over given names is unique. */
  lemma AdjacencyUnique(names: seq<string>, adj: seq<set<nat>>, adj': seq<set<nat>>, links: seq<(string, string)>)
    requires WithinNames(names, adj) && Adjacency(names, adj, links)
    requires WithinNames(names, adj') && Adjacency(names, adj', links)
    ensures adj == adj'
  {
    forall i | 0 <= i < |adj| ensures adj[i] == adj'[i] {
      forall j | j in adj[i] ensures j in adj'[i] {
        assert j < |names| && (names[i], names[j]) in Edges(links);
      }
      forall j | j in adj'[i] ensures j in adj[i] {
        assert j < |names| && (names[i], names[j]) in Edges(links);
      }
    }
  }

  /** The puzzle answer: the triangles of the links of the non-blank lines,
      or the error of the first line that is not a link. */
  ghost function Answer(lines: seq<string>): Result<nat>
  {
    match ParseLinks(NonBlankLines(lines))
    case Err(e) => Err(e)
    case Ok(links) => Ok(|Triangles(Appearance(links), AdjacencyOf(links))|)
  }

  /** `do_it`: trim and drop blank lines, intern the links, count the
      triangles. */
  method Solve(lines: seq<string>) returns (r: Result<nat>)
    ensures r == Answer(lines)
  {
    var rows := NonBlankLines(lines);
    var links :- ParseAll(rows);
    var index, names, adj := BuildGraph(links);
    forall i, j | 0 <= i < |adj| && j in adj[i] ensures i in adj[j] {
      assert j < |names| && (names[i], names[j]) in Edges(links);
      assert (names[j], names[i]) in Edges(links);
    }
    AdjacencyUnique(names, adj, AdjacencyOf(links), links);
    var count := CountTriangles(names, adj);
    return Ok(count);
  }

  /** The line loop's parsing: stop at the first line that is not a link. */
  method ParseAll(rows: seq<string>) returns (r: Result<seq<(string, string)>>)
    ensures r == ParseLinks(rows)
  {
    var links: seq<(string, string)> := [];
    PrependNothing(rows);
    for k := 0 to |rows|
      invariant ParseLinks(rows) == Prepend(links, ParseLinks(rows[k..]))
    {
      ParseLinksFrom(rows, k);
      var link := ParseLink(rows[k]);
      if link.Err? {
        assert ParseLinks(rows) == Err(link.msg);
        return Err(link.msg);
      }
      PrependOne(links, link.value, ParseLinks(rows[k + 1..]));
      links := links + [link.value];
    }
    assert rows[|rows|..] == [] && links + [] == links;
    return Ok(links);
  }

  lemma PrependNothing(rows: seq<string>)
    ensures ParseLinks(rows) == Prepend([], ParseLinks(rows[0..]))
  {
    assert rows[0..] == rows;
    if ParseLinks(rows).Ok? {
      assert [] + ParseLinks(rows).value == ParseLinks(rows).value;
    }
  }

  /** The links from line `k` on: line `k`'s error, or its link in front
      of the rest. */
  lemma ParseLinksFrom(rows: seq<string>, k: nat)
    requires k < |rows|
    ensures ParseLinks(rows[k..]) ==
      if ParseLink(rows[k]).Err? then Err(ParseLink(rows[k]).msg)
      else Prepend([ParseLink(rows[k]).value], ParseLinks(rows[k + 1..]))
  {
    assert rows[k..][1..] == rows[k + 1..];
    assert rows[k..][0] == rows[k];
  }

  lemma PrependOne(links: seq<(string, string)>, link: (string, string), rest: Result<seq<(string, string)>>)
    ensures Prepend(links, Prepend([link], rest)) == Prepend(links + [link], rest)
  {
    if rest.Ok? {
      assert links + ([link] + rest.value) == links + [link] + rest.value;
    }
  }

  /** The links parsed so far in front of the rest, or the rest's error. */
  function Prepend(links: seq<(string, string)>, rest: Result<seq<(string, string)>>): Result<seq<(string, string)>>
  {
    if rest.Err? then rest else Ok(links + rest.value)
  }
}
