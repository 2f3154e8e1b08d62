/** The tree of prefix watchers: matching a key is filtering the registered watchers by prefix. */
module WatchTree {
  datatype WatchEvent = WatchEvent(kind: string, key: string, value: string, revision: nat)

  /** `ch` holds what was sent and not yet taken out by the client. */
  class Watcher {
    const key: string
    const id: int
    const startRevision: int
    var nextRevision: int
    var ch: seq<WatchEvent>
    var closed: bool

    constructor (key: string, id: int, start: int, next: int)
      ensures this.key == key && this.id == id && startRevision == start && nextRevision == next && ch == [] && !closed
    {
      this.key, this.id, startRevision, nextRevision, ch, closed := key, id, start, next, [], false;
    }
  }

  class TreeNode {
    var children: map<char, TreeNode>
    var watchers: map<int, Watcher>

    constructor ()
      ensures children == map[] && watchers == map[]
    {
      children, watchers := map[], map[];
    }
  }

  ghost predicate NoRepeats(ws: seq<Watcher>) {
    forall i, j :: 0 <= i < j < |ws| ==> ws[i] != ws[j]
  }

  /** The nodes reachable from a root, by path; the source keeps only the root. */
  class Trie {
    const root: TreeNode
    ghost var nodes: map<string, TreeNode>

    ghost predicate Shape()
      reads this, nodes.Values
    {
      && "" in nodes && nodes[""] == root
      && (forall p, q :: p in nodes && q in nodes && nodes[p] == nodes[q] ==> p == q)
      && (forall p, n :: p in nodes && 0 <= n <= |p| ==> p[..n] in nodes)
      && forall p, c :: p in nodes ==> Linked(p, c)
    }

    ghost predicate Linked(p: string, c: char)
      requires p in nodes
      reads this, nodes.Values
    {
      if p + [c] in nodes then c in nodes[p].children && nodes[p].children[c] == nodes[p + [c]]
      else c !in nodes[p].children
    }

    /** Watchers are filed under their own key and number. */
    ghost predicate Filed()
      reads this, nodes.Values
    {
      forall p, id :: p in nodes && id in nodes[p].watchers ==>
        nodes[p].watchers[id].key == p && nodes[p].watchers[id].id == id
    }

    ghost predicate Valid()
      reads this, nodes.Values
    {
      Shape() && Filed()
    }

    ghost function At(p: string): map<int, Watcher>
      reads this, nodes.Values
    {
      if p in nodes then nodes[p].watchers else map[]
    }

    ghost predicate Has(w: Watcher)
      reads this, nodes.Values
    {
      w.id in At(w.key) && At(w.key)[w.id] == w
    }

    constructor ()
      ensures Valid() && forall p :: At(p) == map[]
      ensures fresh(nodes.Values)
    {
      root := new TreeNode();
      new;
      nodes := map["" := root];
    }

    method Insert(prefix: string, w: Watcher)
      requires Valid() && w.key == prefix
      modifies this, nodes.Values
      ensures Valid() && forall p :: At(p) == if p == prefix then old(At(p))[w.id := w] else old(At(p))
      ensures fresh(nodes.Values - old(nodes.Values)) && old(nodes.Values) <= nodes.Values
    {
      var node := root;
      assert prefix[..0] == "";
      for i := 0 to |prefix|
        invariant Valid() && prefix[..i] in nodes && node == nodes[prefix[..i]]
        invariant forall p :: At(p) == old(At(p))
        invariant fresh(nodes.Values - old(nodes.Values)) && old(nodes.Values) <= nodes.Values
      {
        var c := prefix[i];
        assert prefix[..i + 1] == prefix[..i] + [c];
        assert Linked(prefix[..i], c);
        if c !in node.children {
          AddChild(prefix[..i], node, c);
        }
        assert Linked(prefix[..i], c);
        node := node.children[c];
      }
      assert prefix[..|prefix|] == prefix;
      label Built:
      node.watchers := node.watchers[w.id := w];
      forall p, c | p in nodes
        ensures Linked(p, c)
      {
        assert old@Built(Linked(p, c));
      }
    }

    method AddChild(ghost path: string, node: TreeNode, c: char)
      requires Valid() && path in nodes && nodes[path] == node && path + [c] !in nodes
      modifies this, node
      ensures Valid() && path + [c] in nodes && nodes == old(nodes)[path + [c] := nodes[path + [c]]]
      ensures fresh(nodes[path + [c]]) && nodes.Values == old(nodes.Values) + {nodes[path + [c]]}
      ensures forall p :: At(p) == old(At(p))
    {
      var child := new TreeNode();
      node.children := node.children[c := child];
      ValuesAdd(nodes, path + [c], child);
      nodes := nodes[path + [c] := child];
      forall p, n | p in nodes && 0 <= n <= |p|
        ensures p[..n] in nodes
      {
        assert n <= |path| ==> (path + [c])[..n] == path[..n];
        assert n == |path| + 1 ==> (path + [c])[..n] == path + [c];
      }
      forall q, d | q in nodes
        ensures Linked(q, d)
      {
        if q == path + [c] {
          assert (q + [d])[..|q|] == q;
        } else {
          assert old(Linked(q, d));
          assert q + [d] == path + [c] ==> (q + [d])[..|q|] == (path + [c])[..|path|];
        }
      }
    }

    /** Exactly the watchers whose key is a prefix of this one, each once. */
    method Match(key: string) returns (result: seq<Watcher>)
      requires Valid()
      ensures NoRepeats(result)
      ensures forall w :: w in result <==> Has(w) && w.key <= key
    {
      result := [];
      var node := root;
      assert key[..0] == "";
      for i := 0 to |key|
        invariant key[..i] in nodes && node == nodes[key[..i]]
        invariant NoRepeats(result)
        invariant forall w :: w in result <==> Has(w) && w.key <= key && |w.key| < i
      {
        result := AppendAll(result, node.watchers);
        AtLength(key, i, result);
        var c := key[i];
        assert key[..i + 1] == key[..i] + [c];
        assert Linked(key[..i], c);
        if c !in node.children {
          NoneBeyond(key[..i + 1]);
          assert forall w :: Has(w) && w.key <= key && |w.key| > i ==> w.key[..i + 1] == key[..i + 1];
          return;
        }
        node := node.children[c];
      }
      result := AppendAll(result, node.watchers);
      AtLength(key, |key|, result);
    }

    /** The watchers of node `i` on the path of the key are those whose key is that part of it. */
    lemma AtLength(key: string, i: nat, result: seq<Watcher>)
      requires Valid() && i <= |key| && key[..i] in nodes
      requires forall w :: w in result <==>
        (Has(w) && w.key <= key && |w.key| < i)
          || (w.id in nodes[key[..i]].watchers && nodes[key[..i]].watchers[w.id] == w)
      ensures forall w :: w in result <==> Has(w) && w.key <= key && |w.key| < i + 1
    {
      forall w
        ensures w in result <==> Has(w) && w.key <= key && |w.key| < i + 1
      {
        assert w.key <= key && |w.key| == i ==> w.key == key[..i];
        assert key[..i] <= key;
      }
    }

    lemma NoneBeyond(p: string)
      requires Valid() && p !in nodes
      ensures forall q :: q in nodes ==> !(p <= q)
    {
      assert forall q :: q in nodes && p <= q ==> q[..|p|] == p;
    }

    method Remove(prefix: string, id: int)
      requires Valid()
      modifies nodes.Values
      ensures Valid() && nodes == old(nodes)
      ensures forall p :: At(p) == if p == prefix then old(At(p)) - {id} else old(At(p))
    {
      var node := root;
      assert prefix[..0] == "";
      for i := 0 to |prefix|
        invariant prefix[..i] in nodes && node == nodes[prefix[..i]]
      {
        var c := prefix[i];
        assert prefix[..i + 1] == prefix[..i] + [c];
        assert Linked(prefix[..i], c);
        if c !in node.children {
          return;
        }
        node := node.children[c];
      }
      assert prefix[..|prefix|] == prefix;
      label Found:
      node.watchers := node.watchers - {id};
      forall p, c | p in nodes
        ensures Linked(p, c)
      {
        assert old@Found(Linked(p, c));
      }
    }
  }

  lemma ValuesAdd(m: map<string, TreeNode>, k: string, v: TreeNode)
    requires k !in m
    ensures m[k := v].Values == m.Values + {v}
  {
    forall x | x in m.Values
      ensures x in m[k := v].Values
    {
      var q :| q in m && m[q] == x;
      assert m[k := v][q] == x;
    }
    assert m[k := v][k] == v;
  }

  /** The watchers of one map, in any order. */
  method AppendAll(before: seq<Watcher>, watchers: map<int, Watcher>) returns (result: seq<Watcher>)
    requires NoRepeats(before)
    requires forall id :: id in watchers ==> watchers[id].id == id && watchers[id] !in before
    ensures NoRepeats(result)
    ensures forall w :: w in result <==> w in before || (w.id in watchers && watchers[w.id] == w)
  {
    result := before;
    var remaining := watchers.Keys;
    while remaining != {}
      invariant remaining <= watchers.Keys && NoRepeats(result)
      invariant forall w :: w in result <==> w in before || (w.id in watchers.Keys - remaining && watchers[w.id] == w)
    {
      assert exists id :: id in remaining by {
        assert (forall id :: id !in remaining) ==> remaining == {};
      }
      var id :| id in remaining;
      result := result + [watchers[id]];
      remaining := remaining - {id};
    }
  }
}
