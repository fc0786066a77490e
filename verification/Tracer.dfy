/** tracer/tracer.go: the call tree built from enter and exit events. */
module Tracer {
  import opened Types

  datatype Info = Info(kind: nat, from: Address, to: Address, input: Code, gas: U64, value: Word)

  /** Output, gas used and error (0 for none), filled in on exit. */
  datatype Done = Done(output: Code, gasUsed: U64, err: nat)

  datatype Event = Enter(info: Info) | Exit(done: Done)

  datatype Tree = Tree(info: Info, done: Done, children: seq<Tree>)

  // ---------- trees and event sequences ----------

  function Flatten(t: Tree): seq<Event>
    decreases t, 1, 0
  {
    [Enter(t.info)] + FlattenAll(t, t.children) + [Exit(t.done)]
  }

  function FlattenAll(t: Tree, ts: seq<Tree>): seq<Event>
    requires forall i :: 0 <= i < |ts| ==> ts[i] in t.children
    decreases t, 0, |ts|
  {
    if ts == [] then []
    else
      var last := ts[|ts| - 1];
      assert last in t.children;
      FlattenAll(t, ts[..|ts| - 1]) + Flatten(last)
  }

  /** The same without the termination argument. */
  function FlattenSeq(ts: seq<Tree>): seq<Event>
    decreases |ts|
  {
    if ts == [] then [] else FlattenSeq(ts[..|ts| - 1]) + Flatten(ts[|ts| - 1])
  }

  lemma {:induction false} FlattenAllIsSeq(t: Tree, ts: seq<Tree>)
    requires forall i :: 0 <= i < |ts| ==> ts[i] in t.children
    ensures FlattenAll(t, ts) == FlattenSeq(ts)
    decreases |ts|
  {
    if ts != [] {
      FlattenAllIsSeq(t, ts[..|ts| - 1]);
    }
  }

  // ---------- the specification: open calls and what is finished below them ----------

  datatype Open = Open(info: Info, closed: seq<Tree>)

  /** `root` is the finished outermost call, once there is one and no call is open. */
  datatype Zip = Zip(root: Option<Tree>, open: seq<Open>)

  const EMPTY := Zip(None, [])

  function Entered(z: Zip, info: Info): Zip {
    Zip(None, z.open + [Open(info, [])])
  }

  function Exited(z: Zip, done: Done): Zip {
    if z.open == [] then z
    else
      var n := |z.open| - 1;
      var t := Tree(z.open[n].info, done, z.open[n].closed);
      if n == 0 then Zip(Some(t), [])
      else Zip(None, z.open[..n - 1] + [z.open[n - 1].(closed := z.open[n - 1].closed + [t])])
  }

  function On(z: Zip, e: Event): Zip {
    match e
    case Enter(info) => Entered(z, info)
    case Exit(done) => Exited(z, done)
  }

  function Traced(z: Zip, es: seq<Event>): Zip
    decreases |es|
  {
    if es == [] then z
    else On(Traced(z, es[..|es| - 1]), es[|es| - 1])
  }

  function FlattenOpen(open: seq<Open>): seq<Event>
    decreases |open|
  {
    if open == [] then []
    else
      var o := open[|open| - 1];
      FlattenOpen(open[..|open| - 1]) + [Enter(o.info)] + FlattenSeq(o.closed)
  }

  // ---------- balanced sequences ----------

  function Depth(es: seq<Event>): int
    decreases |es|
  {
    if es == [] then 0 else Depth(es[..|es| - 1]) + if es[|es| - 1].Enter? then 1 else -1
  }

  /** Balanced with one outermost call: open from the first event to the last. */
  ghost predicate OneCall(es: seq<Event>) {
    es != [] && Depth(es) == 0 && forall i :: 0 < i < |es| ==> Depth(es[..i]) > 0
  }

  /** The calls opened by `es` and not yet closed, outermost first. */
  function OpenCalls(es: seq<Event>): seq<Info>
    decreases |es|
  {
    if es == [] then []
    else
      var front := OpenCalls(es[..|es| - 1]);
      match es[|es| - 1]
      case Enter(info) => front + [info]
      case Exit(_) => if front == [] then [] else front[..|front| - 1]
  }

  function Infos(open: seq<Open>): seq<Info> {
    seq(|open|, i requires 0 <= i < |open| => open[i].info)
  }

  /** At every moment the open calls of the tracer are the unmatched enters, in order. */
  lemma {:induction false} OpenChainIsCallStack(es: seq<Event>)
    ensures Infos(Traced(EMPTY, es).open) == OpenCalls(es)
    decreases |es|
  {
    if es != [] {
      OpenChainIsCallStack(es[..|es| - 1]);
    }
  }

  lemma FlattenExited(z: Zip, done: Done)
    requires z.open != []
    ensures var z' := Exited(z, done);
            if |z.open| == 1 then z'.open == [] && z'.root.Some?
                && Flatten(z'.root.value) == FlattenOpen(z.open) + [Exit(done)]
            else FlattenOpen(z'.open) == FlattenOpen(z.open) + [Exit(done)] && |z'.open| == |z.open| - 1
  {
    var n := |z.open| - 1;
    var o := z.open[n];
    var t := Tree(o.info, done, o.closed);
    FlattenAllIsSeq(t, t.children);
    assert Flatten(t) == [Enter(o.info)] + FlattenSeq(o.closed) + [Exit(done)];
    if n == 0 {
      assert FlattenOpen(z.open[..0]) == [];
    } else {
      var p := z.open[n - 1];
      var z' := Exited(z, done);
      assert z'.open[..n - 1] == z.open[..n - 1] == z.open[..n][..n - 1];
      assert (p.closed + [t])[..|p.closed|] == p.closed;
      assert FlattenSeq(p.closed + [t]) == FlattenSeq(p.closed) + Flatten(t);
    }
  }

  /** While the outermost call is open, the tracer holds exactly the events seen. */
  lemma {:induction false} PrefixIsKept(es: seq<Event>, k: nat)
    requires OneCall(es) && 0 < k < |es|
    ensures var z := Traced(EMPTY, es[..k]);
            |z.open| == Depth(es[..k]) && FlattenOpen(z.open) == es[..k]
  {
    var front := es[..k - 1];
    assert es[..k][..k - 1] == front;
    var z := Traced(EMPTY, front);
    if k > 1 {
      PrefixIsKept(es, k - 1);
    }
    match es[k - 1]
    case Enter(info) =>
      assert Entered(z, info).open[..|z.open|] == z.open;
    case Exit(done) =>
      assert Depth(es[..k]) == Depth(front) - 1;
      assert k > 1;
      FlattenExited(z, done);
  }

  lemma DepthOfOne(e: Event)
    ensures Depth([e]) != 0
  {
    assert [e][..0] == [];
  }

  /** For every balanced sequence with one outermost call, the tree that results flattens back
      to the sequence, and no call is left open. */
  lemma TreeOfEvents(es: seq<Event>)
    requires OneCall(es)
    ensures var z := Traced(EMPTY, es);
            z.open == [] && z.root.Some? && Flatten(z.root.value) == es
  {
    var k := |es| - 1;
    var e := es[k];
    assert es == es[..k] + [e];
    DepthOfOne(e);
    assert k == 0 ==> es == [e];
    if k > 0 {
      PrefixIsKept(es, k);
      assert Depth(es[..k]) == 1;
      FlattenExited(Traced(EMPTY, es[..k]), es[k].done);
    }
  }

  lemma {:induction false} TracedConcat(z: Zip, es: seq<Event>, fs: seq<Event>)
    ensures Traced(z, es + fs) == Traced(Traced(z, es), fs)
    decreases |fs|
  {
    if fs == [] {
      assert es + fs == es;
    } else {
      assert (es + fs)[..|es + fs| - 1] == es + fs[..|fs| - 1];
      TracedConcat(z, es, fs[..|fs| - 1]);
    }
  }

  function Top(z: Zip): Open
    requires z.open != []
  {
    z.open[|z.open| - 1]
  }

  function AddClosed(z: Zip, ts: seq<Tree>): Zip
    requires z.open != []
  {
    Zip(None, z.open[..|z.open| - 1] + [Top(z).(closed := Top(z).closed + ts)])
  }

  /** Conversely, tracing the events of a tree under any open calls adds exactly that tree; with
      no call open it takes the place of whatever tree was there. */
  lemma {:induction false} EventsOfTree(z: Zip, t: Tree)
    ensures Traced(z, Flatten(t)) == if z.open == [] then Zip(Some(t), []) else AddClosed(z, [t])
    decreases t, 1, 0
  {
    var inner := FlattenAll(t, t.children);
    TracedConcat(z, [Enter(t.info)] + inner, [Exit(t.done)]);
    TracedConcat(z, [Enter(t.info)], inner);
    TracedOne(z, Enter(t.info));
    EventsOfTrees(Entered(z, t.info), t, t.children);
    TracedOne(AddClosed(Entered(z, t.info), t.children), Exit(t.done));
    ClosingTop(z, t);
  }

  lemma ClosingTop(z: Zip, t: Tree)
    ensures Exited(AddClosed(Entered(z, t.info), t.children), t.done)
         == if z.open == [] then Zip(Some(t), []) else AddClosed(z, [t])
  {
    var z1 := AddClosed(Entered(z, t.info), t.children);
    assert [] + t.children == t.children;
    assert Entered(z, t.info).open[..|z.open|] == z.open;
    assert z1 == Zip(None, z.open + [Open(t.info, t.children)]);
    if z.open != [] {
      assert z1.open[..|z.open| - 1] == z.open[..|z.open| - 1];
    }
  }

  lemma TracedOne(z: Zip, e: Event)
    ensures Traced(z, [e]) == On(z, e)
  {
    assert [e][..0] == [];
  }

  lemma {:induction false} EventsOfTrees(z: Zip, t: Tree, ts: seq<Tree>)
    requires z.root.None? && z.open != []
    requires forall i :: 0 <= i < |ts| ==> ts[i] in t.children
    ensures Traced(z, FlattenAll(t, ts)) == AddClosed(z, ts)
    decreases t, 0, |ts|
  {
    if ts == [] {
      assert z.open == z.open[..|z.open| - 1] + [Top(z)] && Top(z).closed + [] == Top(z).closed;
    } else {
      var front, last := ts[..|ts| - 1], ts[|ts| - 1];
      TracedConcat(z, FlattenAll(t, front), Flatten(last));
      EventsOfTrees(z, t, front);
      EventsOfTree(AddClosed(z, front), last);
      assert Top(z).closed + front + [last] == Top(z).closed + ts by { assert front + [last] == ts; }
    }
  }

  // ---------- the pointer structure ----------

  class Node {
    const info: Info
    var done: Done
    var children: seq<Node>
    const parent: Node?

    constructor (info: Info, parent: Node?)
      ensures this.info == info && this.parent == parent && children == [] && done == Done([], 0, 0)
    {
      this.info, this.parent := info, parent;
      done, children := Done([], 0, 0), [];
    }
  }

  /** The nodes of `s` from `n` down form the tree `t`. */
  ghost predicate Represents(n: Node, t: Tree, s: set<Node>)
    reads s
    decreases t
  {
    && n in s && n.info == t.info && n.done == t.done && |n.children| == |t.children|
    && forall i :: 0 <= i < |t.children| ==> Represents(n.children[i], t.children[i], s)
  }

  lemma {:induction false} RepresentsMore(n: Node, t: Tree, s: set<Node>, more: set<Node>)
    requires Represents(n, t, s) && s <= more
    ensures Represents(n, t, more)
    decreases t
  {
    forall i | 0 <= i < |t.children| ensures Represents(n.children[i], t.children[i], more) {
      RepresentsMore(n.children[i], t.children[i], s, more);
    }
  }

  class CallTracer {
    var root: Node?
    var current: Node?
    ghost var zip: Zip
    ghost var path: seq<Node>
    ghost var settled: set<Node>

    /** Node i of the path is open call i, with its finished children below it. */
    ghost predicate OpenOk(i: nat)
      requires i < |path| == |zip.open|
      reads this, path, settled
    {
      var n, o := path[i], zip.open[i];
      && n.info == o.info
      && n.parent == (if i == 0 then null else path[i - 1])
      && |n.children| == |o.closed| + (if i < |path| - 1 then 1 else 0)
      && (i < |path| - 1 ==> n.children[|o.closed|] == path[i + 1])
      && forall j :: 0 <= j < |o.closed| ==> Represents(n.children[j], o.closed[j], settled)
    }

    /** `path` is the parent chain from `current`, outermost first; what it does not contain
        is settled. */
    ghost predicate Valid()
      reads this, path, settled
    {
      && |path| == |zip.open|
      && (forall i, j :: 0 <= i < j < |path| ==> path[i] != path[j])
      && (forall i :: 0 <= i < |path| ==> path[i] !in settled)
      && current == (if path == [] then null else path[|path| - 1])
      && (path != [] ==> root == path[0] && zip.root.None?)
      && (path == [] && zip.root.None? ==> root == null)
      && (path == [] && zip.root.Some? ==> root != null && Represents(root, zip.root.value, settled))
      && (forall i :: 0 <= i < |path| ==> OpenOk(i))
    }

    constructor ()
      ensures Valid() && zip == EMPTY
    {
      root, current := null, null;
      zip, path, settled := EMPTY, [], {};
    }

    method OnEnter(info: Info)
      requires Valid()
      modifies this, path
      ensures Valid() && zip == Entered(old(zip), info)
    {
      ghost var k := |path|;
      var n := new Node(info, current);
      if current == null {
        root := n;
      } else {
        current.children := current.children + [n];
      }
      current := n;
      zip := Entered(zip, info);
      path := path + [n];
      forall i | 0 <= i <= k ensures OpenOk(i) {
        if i < k { assert old(OpenOk(i)); }
      }
    }

    method OnExit(done: Done)
      requires Valid()
      modifies this, path
      ensures Valid() && zip == Exited(old(zip), done)
    {
      if current == null {
        return;
      }
      ghost var k, n := |path| - 1, current;
      ghost var open, before, chain := zip.open, settled, path;
      ghost var t := Tree(open[k].info, done, open[k].closed);
      assert OpenOk(k) && (k > 0 ==> OpenOk(k - 1));
      current.done := done;
      current := current.parent;
      zip := Exited(zip, done);
      path := path[..k];
      settled := settled + {n};
      forall i, j | 0 <= i <= k && 0 <= j < |open[i].closed|
        ensures |chain[i].children| > j && Represents(chain[i].children[j], open[i].closed[j], settled)
      {
        assert old(OpenOk(i));
        RepresentsMore(chain[i].children[j], open[i].closed[j], before, settled);
      }
      assert Represents(n, t, settled);
      forall i | 0 <= i < k ensures OpenOk(i) {
        assert old(OpenOk(i));
      }
    }
  }
}
