/** The cycle check of awgValidateReplacementGraph (delete_replacement.go). */
module BackupGraph {
  import opened Lists

  /** Each connection with its backup list. */
  type Graph = map<string, seq<string>>

  predicate Edge(g: Graph, a: string, b: string) {
    a in g && b in g[a]
  }

  predicate Path(g: Graph, p: seq<string>) {
    forall i :: 0 <= i < |p| - 1 ==> Edge(g, p[i], p[i + 1])
  }

  predicate IsCycle(g: Graph, p: seq<string>) {
    |p| >= 2 && Path(g, p) && p[0] == p[|p| - 1]
  }

  ghost predicate Acyclic(g: Graph) {
    forall p :: !IsCycle(g, p)
  }

  function Nodes(g: Graph): set<string> {
    g.Keys + set id, x | id in g && x in g[id] :: x
  }

  /** Every edge leads from a finished node to one finished before it. */
  ghost predicate Ordered(g: Graph, finished: seq<string>) {
    && NoDuplicates(finished)
    && forall k :: 0 <= k < |finished| ==> LeadsBack(g, finished, k)
  }

  ghost predicate LeadsBack(g: Graph, finished: seq<string>, k: nat)
    requires k < |finished|
  {
    forall x :: Edge(g, finished[k], x) ==> x in finished[..k]
  }

  /** Along a path from a finished node, positions in the finishing order only fall. */
  lemma {:induction false} PathLeadsBack(g: Graph, finished: seq<string>, p: seq<string>, k: nat) returns (j: nat)
    requires Ordered(g, finished) && Path(g, p) && |p| >= 1
    requires k < |finished| && p[0] == finished[k]
    ensures j < |finished| && p[|p| - 1] == finished[j] && (|p| > 1 ==> j < k) && j <= k
    decreases |p|
  {
    if |p| == 1 {
      j := k;
    } else {
      assert Edge(g, p[0], p[1]) && LeadsBack(g, finished, k);
      var n :| 0 <= n < k && finished[..k][n] == p[1];
      forall i | 0 <= i < |p[1..]| - 1
        ensures Edge(g, p[1..][i], p[1..][i + 1])
      {
        assert Edge(g, p[i + 1], p[i + 1 + 1]);
      }
      j := PathLeadsBack(g, finished, p[1..], n);
    }
  }

  /** A graph whose nodes are all finished has no cycle. */
  lemma OrderedIsAcyclic(g: Graph, finished: seq<string>)
    requires Ordered(g, finished) && forall id :: id in g ==> id in finished
    ensures Acyclic(g)
  {
    forall p
      ensures !IsCycle(g, p)
    {
      if IsCycle(g, p) {
        assert Edge(g, p[0], p[1]);
        var k :| 0 <= k < |finished| && finished[k] == p[0];
        var j := PathLeadsBack(g, finished, p, k);
        assert false;
      }
    }
  }

  /** The nodes being visited and those already visited, as the marks say. */
  ghost predicate Marked(marks: map<string, int>, stack: seq<string>, finished: seq<string>) {
    && (forall id :: id in marks <==> id in stack || id in finished)
    && (forall id :: id in finished ==> marks[id] == 2)
    && (forall id :: id in stack ==> marks[id] == 1)
    && NoDuplicates(stack)
  }

  lemma PushNode(marks: map<string, int>, stack: seq<string>, finished: seq<string>, id: string)
    requires Marked(marks, stack, finished) && id !in marks
    ensures Marked(marks[id := 1], stack + [id], finished)
  {
    assert forall x :: x in stack + [id] <==> x in stack || x == id;
  }

  lemma PopNode(marks: map<string, int>, stack: seq<string>, finished: seq<string>, id: string)
    requires Marked(marks, stack + [id], finished)
    ensures Marked(marks[id := 2], stack, finished + [id]) && id !in finished && id !in stack
  {
    var pushed := stack + [id];
    assert pushed[|stack|] == id;
    assert forall x :: x in pushed <==> x in stack || x == id;
    assert forall x :: x in finished + [id] <==> x in finished || x == id;
    assert forall i :: 0 <= i < |stack| ==> pushed[i] == stack[i];
    assert marks[id] == 1;
  }

  lemma FinishNode(g: Graph, finished: seq<string>, id: string)
    requires Ordered(g, finished) && id !in finished
    requires forall x :: Edge(g, id, x) ==> x in finished
    ensures Ordered(g, finished + [id])
  {
    var more := finished + [id];
    forall k | 0 <= k < |more|
      ensures LeadsBack(g, more, k)
    {
      assert more[..k] == finished[..k];
      if k < |finished| {
        assert LeadsBack(g, finished, k);
      } else {
        assert finished[..k] == finished;
      }
    }
  }

  /** Meeting a node that is still being visited closes a cycle. */
  lemma StackCloses(g: Graph, stack: seq<string>, id: string) returns (cycle: seq<string>)
    requires Path(g, stack + [id]) && id in stack
    ensures IsCycle(g, cycle)
  {
    var k :| 0 <= k < |stack| && stack[k] == id;
    cycle := (stack + [id])[k..];
    forall i | 0 <= i < |cycle| - 1
      ensures Edge(g, cycle[i], cycle[i + 1])
    {
      assert Edge(g, (stack + [id])[k + i], (stack + [id])[k + i + 1]);
    }
  }

  class GraphCheck {
    var marks: map<string, int>
    ghost var finished: seq<string>

    constructor ()
      ensures marks == map[] && finished == []
    {
      marks, finished := map[], [];
    }

    /** Depth-first search from `id`; `stack` is the path by which the search came. */
    method Visit(g: Graph, id: string, ghost stack: seq<string>) returns (ok: bool, ghost cycle: seq<string>)
      requires id in Nodes(g) && Path(g, stack + [id])
      requires Marked(marks, stack, finished) && Ordered(g, finished)
      modifies this
      ensures ok ==> Marked(marks, stack, finished) && Ordered(g, finished)
      ensures ok ==> old(finished) <= finished && id in finished && old(marks.Keys) <= marks.Keys
      ensures !ok ==> IsCycle(g, cycle)
      decreases Nodes(g) - marks.Keys
    {
      cycle := [];
      if id in marks && marks[id] != 0 {
        ok := marks[id] == 2;
        if !ok {
          cycle := StackCloses(g, stack, id);
        }
        return;
      }
      assert id !in marks;
      PushNode(marks, stack, finished, id);
      marks := marks[id := 1];
      var next := if id in g then g[id] else [];
      for i := 0 to |next|
        invariant Marked(marks, stack + [id], finished) && Ordered(g, finished)
        invariant old(finished) <= finished
        invariant old(marks.Keys) + {id} <= marks.Keys
        invariant forall j :: 0 <= j < i ==> next[j] in finished
      {
        ExtendPath(g, stack, id, next[i]);
        ok, cycle := Visit(g, next[i], stack + [id]);
        if !ok {
          return;
        }
      }
      PopNode(marks, stack, finished, id);
      FinishNode(g, finished, id);
      marks := marks[id := 2];
      finished := finished + [id];
      ok := true;
    }
  }

  lemma ExtendPath(g: Graph, stack: seq<string>, id: string, x: string)
    requires Path(g, stack + [id]) && Edge(g, id, x)
    ensures Path(g, stack + [id] + [x]) && x in Nodes(g)
  {
    var p, q := stack + [id], stack + [id] + [x];
    forall i | 0 <= i < |q| - 1
      ensures Edge(g, q[i], q[i + 1])
    {
      if i < |p| - 1 {
        assert Edge(g, p[i], p[i + 1]);
      }
    }
  }

  /** The check accepts exactly the graphs without a cycle. */
  method ValidateReplacementGraph(g: Graph) returns (ok: bool)
    ensures ok <==> Acyclic(g)
  {
    var check := new GraphCheck();
    var todo := g.Keys;
    while todo != {}
      invariant todo <= g.Keys
      invariant Marked(check.marks, [], check.finished) && Ordered(g, check.finished)
      invariant forall id :: id in g && id !in todo ==> id in check.finished
    {
      var id :| id in todo;
      todo := todo - {id};
      ghost var cycle;
      ok, cycle := check.Visit(g, id, []);
      if !ok {
        return false;
      }
    }
    OrderedIsAcyclic(g, check.finished);
    return true;
  }
}
