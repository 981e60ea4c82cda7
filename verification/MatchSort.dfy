/** Console match lists (src/switch_console.c): building by push_match and the
    pointer-rewiring bubble sort of switch_console_sort_matches. */
module MatchSort {
  import opened Common

  class Node {
    const val: string
    var next: Node?

    constructor (val: string)
      ensures this.val == val && next == null
    {
      this.val := val;
      next := null;
    }
  }

  // ---- Order of values ----

  /** strcmp(a, b) > 0 */
  predicate Greater(a: string, b: string) {
    if a == [] then false
    else if b == [] then true
    else if a[0] == b[0] then Greater(a[1..], b[1..])
    else a[0] > b[0]
  }

  /** Where two texts part: the length of their longest common prefix. */
  ghost function Parting(a: string, b: string): (k: nat)
    ensures k <= |a| && k <= |b| && a[..k] == b[..k]
    ensures k < |a| && k < |b| ==> a[k] != b[k]
  {
    if a == [] || b == [] || a[0] != b[0] then 0
    else
      var k := Parting(a[1..], b[1..]);
      assert a[..k + 1] == [a[0]] + a[1..][..k] && b[..k + 1] == [b[0]] + b[1..][..k];
      k + 1
  }

  /** A proper prefix is smaller; otherwise the first differing character decides. */
  lemma {:induction false} GreaterMeans(a: string, b: string)
    ensures var k := Parting(a, b);
            Greater(a, b) <==> k < |a| && (k == |b| || a[k] > b[k])
  {
    if a != [] && b != [] && a[0] == b[0] {
      GreaterMeans(a[1..], b[1..]);
    }
  }

  lemma {:induction false} GreaterIsAsymmetric(a: string, b: string)
    ensures !(Greater(a, b) && Greater(b, a))
    ensures !Greater(a, b) && !Greater(b, a) ==> a == b
  {
    if a != [] && b != [] && a[0] == b[0] {
      GreaterIsAsymmetric(a[1..], b[1..]);
      assert a == [a[0]] + a[1..] && b == [b[0]] + b[1..];
    }
  }

  lemma {:induction false} NotGreaterIsTransitive(a: string, b: string, c: string)
    requires !Greater(a, b) && !Greater(b, c)
    ensures !Greater(a, c)
  {
    if a != [] && b != [] && c != [] && a[0] == b[0] == c[0] {
      NotGreaterIsTransitive(a[1..], b[1..], c[1..]);
    }
  }

  // ---- Sequences of nodes ----

  ghost predicate Sorted(s: seq<Node>) {
    forall i, j :: 0 <= i < j < |s| ==> !Greater(s[i].val, s[j].val)
  }

  /** The nodes that carry value `v`, in order. */
  ghost function Pick(s: seq<Node>, v: string): seq<Node> {
    if s == [] then [] else (if s[0].val == v then [s[0]] else []) + Pick(s[1..], v)
  }

  /** A stable rearrangement: every value's nodes are the same nodes in the same order. */
  ghost predicate StablyEqual(a: seq<Node>, b: seq<Node>) {
    forall v: string :: Pick(a, v) == Pick(b, v)
  }

  ghost predicate Distinct(s: seq<Node>) {
    forall i, j :: 0 <= i < j < |s| ==> s[i] != s[j]
  }

  ghost function Swapped(s: seq<Node>, j: nat): (r: seq<Node>)
    requires 1 <= j < |s|
    ensures |r| == |s|
  {
    s[j - 1 := s[j]][j := s[j - 1]]
  }

  lemma {:induction false} PickAppend(a: seq<Node>, b: seq<Node>, v: string)
    ensures Pick(a + b, v) == Pick(a, v) + Pick(b, v)
  {
    if a == [] {
      assert a + b == b;
    } else {
      var h := if a[0].val == v then [a[0]] else [];
      assert (a + b)[1..] == a[1..] + b;
      PickAppend(a[1..], b, v);
      Assoc(h, Pick(a[1..], v), Pick(b, v));
    }
  }

  lemma PickPair(x: Node, y: Node, v: string)
    ensures Pick([x, y], v) == (if x.val == v then [x] else []) + (if y.val == v then [y] else [])
  {
    assert [x, y][1..] == [y];
    assert Pick([y], v) == (if y.val == v then [y] else []) + Pick([y][1..], v);
  }

  lemma SwapIsStable(s: seq<Node>, j: nat)
    requires 1 <= j < |s| && s[j - 1].val != s[j].val
    ensures StablyEqual(Swapped(s, j), s)
  {
    var a, x, y, b := s[..j - 1], s[j - 1], s[j], s[j + 1..];
    assert s == a + ([x, y] + b);
    assert Swapped(s, j) == a + ([y, x] + b);
    forall v: string
      ensures Pick(Swapped(s, j), v) == Pick(s, v)
    {
      PickAppend(a, [x, y] + b, v);
      PickAppend(a, [y, x] + b, v);
      PickAppend([x, y], b, v);
      PickAppend([y, x], b, v);
      PickPair(x, y, v);
      PickPair(y, x, v);
    }
  }

  lemma SwapPermutes(s: seq<Node>, j: nat)
    requires 1 <= j < |s|
    ensures multiset(Swapped(s, j)) == multiset(s)
    ensures forall n :: n in Swapped(s, j) <==> n in s
  {
    assert forall n :: n in Swapped(s, j) <==> n in multiset(Swapped(s, j));
    assert forall n :: n in s <==> n in multiset(s);
  }

  lemma {:induction false} PickMembers(s: seq<Node>, v: string)
    ensures forall n :: n in Pick(s, v) <==> n in s && n.val == v
  {
    if s != [] {
      PickMembers(s[1..], v);
      assert s == [s[0]] + s[1..];
    }
  }

  lemma PickFirst(s: seq<Node>)
    ensures s != [] ==> Pick(s, s[0].val) != [] && Pick(s, s[0].val)[0] == s[0]
  {
  }

  lemma LeastIsFirst(a: seq<Node>, b: seq<Node>)
    requires a != [] && b != [] && Sorted(a) && StablyEqual(a, b)
    ensures !Greater(a[0].val, b[0].val)
  {
    var u := b[0].val;
    PickMembers(a, u);
    PickMembers(b, u);
    assert b[0] in Pick(a, u);
    var k :| 0 <= k < |a| && a[k] == b[0];
    GreaterIsAsymmetric(u, u);
  }

  lemma TailsStablyEqual(a: seq<Node>, b: seq<Node>)
    requires a != [] && b != [] && a[0] == b[0] && StablyEqual(a, b)
    ensures StablyEqual(a[1..], b[1..])
  {
    forall v: string
      ensures Pick(a[1..], v) == Pick(b[1..], v)
    {
      var h := if a[0].val == v then [a[0]] else [];
      assert Pick(a, v) == h + Pick(a[1..], v) && Pick(b, v) == h + Pick(b[1..], v);
      assert Pick(a[1..], v) == Pick(a, v)[|h|..];
      assert Pick(b[1..], v) == Pick(b, v)[|h|..];
    }
  }

  /** There is only one stable sort of a list, so the contract of Sort pins the result down. */
  lemma {:induction false} StableSortIsUnique(a: seq<Node>, b: seq<Node>)
    requires Sorted(a) && Sorted(b) && StablyEqual(a, b)
    ensures a == b
  {
    PickFirst(a);
    PickFirst(b);
    if a != [] && b != [] {
      LeastIsFirst(a, b);
      LeastIsFirst(b, a);
      GreaterIsAsymmetric(a[0].val, b[0].val);
      TailsStablyEqual(a, b);
      StableSortIsUnique(a[1..], b[1..]);
      assert a == [a[0]] + a[1..] && b == [b[0]] + b[1..];
    }
  }

  // ---- Case-insensitive equality ----

  function Lower(c: char): char { if 'A' <= c <= 'Z' then c - 'A' + 'a' else c }

  /** strcasecmp(a, b) == 0 */
  predicate CaseEqual(a: string, b: string) {
    |a| == |b| && forall i :: 0 <= i < |a| ==> Lower(a[i]) == Lower(b[i])
  }

  /** Two characters that differ only in case: an upper-case letter and its lower-case form. */
  predicate CasePair(u: char, l: char) { 'A' <= u <= 'Z' && 'a' <= l <= 'z' && l as int - u as int == 32 }

  /** Texts are taken as equal exactly if they differ, place by place, at most in the case of a letter. */
  lemma CaseEqualMeans(a: string, b: string)
    ensures CaseEqual(a, b) <==>
            |a| == |b| && forall i :: 0 <= i < |a| ==> a[i] == b[i] || CasePair(a[i], b[i]) || CasePair(b[i], a[i])
  {
  }

  ghost predicate NoCaseTwins(s: seq<Node>) {
    forall i, j :: 0 <= i < j < |s| ==> !CaseEqual(s[i].val, s[j].val)
  }

  // ---- The list object ----

  class Matches {
    var head: Node?
    var end: Node?
    var count: int
    ghost var nodes: seq<Node>   // the list, in order
    ghost var repr: set<Node>

    /** Every node but the last links to its successor; the last link is unconstrained,
        so that the half-sorted list may be cyclic at its tail. */
    ghost predicate Chain()
      reads this, repr
    {
      && count == |nodes| && Distinct(nodes)
      && (forall k :: 0 <= k < |nodes| ==> nodes[k] in repr)
      && (forall k :: 0 <= k < |nodes| - 1 ==> nodes[k].next == nodes[k + 1])
      && head == (if nodes == [] then null else nodes[0])
      && (nodes != [] ==> var last := nodes[|nodes| - 1].next; last == null || last in nodes)
    }

    ghost predicate Valid()
      reads this, repr
    {
      && Chain()
      && (nodes == [] ==> end == null)
      && (nodes != [] ==> end == nodes[|nodes| - 1] && end.next == null)
    }

    constructor ()
      ensures Valid() && nodes == [] && repr == {}
    {
      head, end, count, nodes, repr := null, null, 0, [], {};
    }

    method PushMatch(val: string)
      requires Valid()
      modifies this, repr
      ensures Valid() && fresh(repr - old(repr))
      ensures |nodes| == |old(nodes)| + 1 && nodes[..|nodes| - 1] == old(nodes)
      ensures nodes[|nodes| - 1].val == val && fresh(nodes[|nodes| - 1])
    {
      var m := new Node(val);
      if head != null {
        end.next := m;
      } else {
        head := m;
      }
      count := count + 1;
      end := m;
      nodes := nodes + [m];
      repr := repr + {m};
    }

    /** Ignores a value that is already listed up to letter case; a list built this way has no such pair. */
    method PushMatchUnique(val: string)
      requires Valid()
      modifies this, repr
      ensures Valid() && fresh(repr - old(repr)) && old(nodes) <= nodes
      ensures if exists n :: n in old(nodes) && CaseEqual(n.val, val) then nodes == old(nodes)
              else |nodes| == |old(nodes)| + 1 && nodes[|nodes| - 1].val == val
      ensures old(NoCaseTwins(nodes)) ==> NoCaseTwins(nodes)
    {
      var node := head;
      ghost var k := 0;
      while node != null
        invariant 0 <= k <= |nodes| && node == (if k < |nodes| then nodes[k] else null)
        invariant forall i :: 0 <= i < k ==> !CaseEqual(nodes[i].val, val)
        decreases |nodes| - k
      {
        if CaseEqual(node.val, val) {
          return;
        }
        node := node.next;
        k := k + 1;
      }
      PushMatch(val);
    }

    /** One exchange in the four-slot window (s0, s1, s2, s3) at positions j-2 .. j+1. */
    method Exchange(s0: Node?, s1: Node, s2: Node, s3: Node?, ghost j: nat)
      requires Chain() && 1 <= j < |nodes| && s1 == nodes[j - 1] && s2 == nodes[j]
      requires s0 == if j == 1 then null else nodes[j - 2]
      requires if j + 1 < |nodes| then s3 == nodes[j + 1] else s3 == null || s3 in nodes
      modifies this`head, this`nodes, repr
      ensures Chain() && nodes == Swapped(old(nodes), j) && s1.next == s3
      ensures forall n :: n in repr && n != s1 && n != s2 && n != s0 ==> n.next == old(n.next)
    {
      s1.next := s3;
      s2.next := s1;
      if s0 != null {
        s0.next := s2;
      }
      if s1 == head {
        head := s2;
      }
      SwapPermutes(nodes, j);
      nodes := Swapped(nodes, j);
    }

    /** The four slots stand at positions j-2 .. j+1, except that s3 sticks to the last
        node (or wanders inside the list) once there is no position j+1. */
    ghost predicate Window(s0: Node?, s1: Node?, s2: Node?, s3: Node?, j: nat)
      reads this
    {
      && 1 <= j <= |nodes|
      && s0 == (if j == 1 then null else nodes[j - 2]) && s1 == nodes[j - 1]
      && (j < |nodes| ==> s2 == nodes[j])
      && (if j + 1 < |nodes| then s3 == nodes[j + 1] else s3 == null || s3 in nodes)
    }

    lemma Inside(s: Node)
      requires Chain() && s in nodes
      ensures s.next == null || s.next in nodes
    {
      var k :| 0 <= k < |nodes| && nodes[k] == s;
      if k < |nodes| - 1 {
        assert s.next == nodes[k + 1];
      }
    }

    ghost function Tail(): Node
      requires nodes != []
      reads this
    {
      nodes[|nodes| - 1]
    }

    /** One turn of the inner loop: exchange or not, then move the window on.  Only in the last turn of the
        first pass is there no position j+1 while s3 is still a node. */
    method Step(s0: Node?, s1: Node, s2: Node, s3: Node?, ghost j: nat)
      returns (t0: Node?, t1: Node?, t2: Node?, t3: Node?)
      requires Chain() && Window(s0, s1, s2, s3, j) && j < |nodes|
      modifies this`head, this`nodes, repr
      ensures Chain() && Window(t0, t1, t2, t3, j + 1)
      ensures nodes == if Greater(s1.val, s2.val) then Swapped(old(nodes), j) else old(nodes)
      ensures j + 1 < |nodes| ==> Tail().next == old(Tail().next)
      ensures j + 2 == |nodes| && Tail().next == null ==> t3 == Tail()
      ensures j + 1 == |nodes| ==> Tail().next == if Greater(s1.val, s2.val) then s3 else old(Tail().next)
    {
      if Greater(s1.val, s2.val) {
        SwapPermutes(nodes, j);
        Exchange(s0, s1, s2, s3, j);
        t0, t1, t2 := s2, s1, s1.next;
      } else {
        t0, t1, t2 := s1, s2, s3;
      }
      t3 := s3;
      if s3 != null && s3.next != null {
        Inside(s3);
        t3 := s3.next;
      }
    }

    method Turn(s0: Node?, s1: Node, s2: Node, s3: Node?, ghost j: nat, ghost m: nat)
      returns (t0: Node?, t1: Node?, t2: Node?, t3: Node?)
      requires Chain() && Window(s0, s1, s2, s3, j) && j < |nodes| && j < m
      requires Largest(nodes, j - 1) && TailSorted(nodes, m)
      modifies this`head, this`nodes, repr
      ensures Chain() && Window(t0, t1, t2, t3, j + 1) && Largest(nodes, j) && TailSorted(nodes, m)
      ensures StablyEqual(nodes, old(nodes)) && multiset(nodes) == multiset(old(nodes))
      ensures j + 1 < |nodes| ==> Tail() == old(Tail()) && Tail().next == old(Tail().next)
      ensures j + 2 == |nodes| && Tail().next == null ==> t3 == Tail()
      ensures j + 1 == |nodes| ==>
                if Tail() == old(Tail()) then Tail().next == old(Tail().next)
                else Tail().next == s3 && nodes[j - 1] == old(Tail())
    {
      hide StablyEqual, TailSorted, Largest, Greater;
      StablyEqualToItself(nodes);
      if Greater(s1.val, s2.val) {
        SwapAdvances(nodes, j, m);
        SwapPermutes(nodes, j);
      } else {
        StepAdvances(nodes, j);
      }
      t0, t1, t2, t3 := Step(s0, s1, s2, s3, j);
    }

    /** Pass i carries the largest of the first count-i+1 values to position count-i. */
    method Pass(i: int)
      requires Chain() && 1 <= i < count && TailSorted(nodes, count - i + 1)
      modifies this`head, this`nodes, repr
      ensures Chain() && TailSorted(nodes, count - i)
      ensures StablyEqual(nodes, old(nodes)) && multiset(nodes) == multiset(old(nodes))
      ensures i == 1 && count >= 3 && old(Tail().next) == null ==>
                Tail().next == if Tail() == old(Tail()) then null else nodes[|nodes| - 2]
    {
      hide StablyEqual, TailSorted, Largest, Greater;
      var s0: Node?, s1: Node?, s2: Node? := null, head, head.next;
      assert s1 == nodes[0] && s2 == nodes[1];
      Inside(s2);
      var s3: Node? := if s2 != null then s2.next else null;
      var j := 1;
      ghost var last := Tail();
      LargestOfOne(nodes);
      StablyEqualToItself(nodes);
      while j <= count - i
        invariant 1 <= j <= count - i + 1 && Chain() && Window(s0, s1, s2, s3, j)
        invariant Largest(nodes, j - 1) && TailSorted(nodes, count - i + 1)
        invariant StablyEqual(nodes, old(nodes)) && multiset(nodes) == multiset(old(nodes))
        invariant i == 1 && j < count ==> Tail() == last && last.next == old(Tail().next)
        invariant i == 1 && j == count - 1 >= 2 && old(Tail().next) == null ==> s3 == last
        invariant i == 1 && j == count >= 3 && old(Tail().next) == null ==>
                    Tail().next == if Tail() == last then null else last
        invariant j == count && Tail() != last ==> nodes[|nodes| - 2] == last
      {
        ghost var before := nodes;
        s0, s1, s2, s3 := Turn(s0, s1, s2, s3, j, count - i + 1);
        StablyEqualTransitive(nodes, before, old(nodes));
        j := j + 1;
      }
      PassDone(nodes, count - i);
    }

    /** The result is NULL-terminated, sorted, and a stable rearrangement of the same nodes. */
    method Sort()
      requires Valid()
      modifies this, repr
      ensures Valid() && repr == old(repr) && count == old(count)
      ensures Sorted(nodes) && StablyEqual(nodes, old(nodes)) && multiset(nodes) == multiset(old(nodes))
    {
      if count < 2 {
        return;
      }
      var i := 1;
      while i < count
        invariant 1 <= i <= count && Chain() && repr == old(repr) && count == old(count)
        invariant TailSorted(nodes, count - i + 1)
        invariant StablyEqual(nodes, old(nodes)) && multiset(nodes) == multiset(old(nodes))
      {
        ghost var before := nodes;
        Pass(i);
        StablyEqualTransitive(nodes, before, old(nodes));
        i := i + 1;
      }
      var p := head;
      i := 1;
      while i < count
        invariant 1 <= i <= count && p == nodes[i - 1]
      {
        p := p.next;
        i := i + 1;
      }
      p.next := null;
      end := p;
    }
  }

  /** The tail does become cyclic: three values in falling order are enough. */
  method CyclicTail() returns (m: Matches)
    ensures m.Chain() && m.count == 3 && m.nodes[2].next == m.nodes[1]
  {
    m := new Matches();
    m.PushMatch("c");
    m.PushMatch("b");
    m.PushMatch("a");
    ghost var was := m.nodes;
    m.Pass(1);
    if m.nodes[2] == was[2] {
      assert was[0] in multiset(m.nodes) && was[0] != m.nodes[2];
      assert Greater("c", "a");
    }
  }

  // ---- What one pass does to the sequence ----

  /** Positions from m on are final: nothing before them is greater. */
  ghost predicate TailSorted(s: seq<Node>, m: int) {
    forall p, q :: 0 <= p < q < |s| && m <= q ==> !Greater(s[p].val, s[q].val)
  }

  ghost predicate Largest(s: seq<Node>, k: nat)
    requires k < |s|
  {
    forall p :: 0 <= p < k ==> !Greater(s[p].val, s[k].val)
  }

  lemma SwapAdvances(s: seq<Node>, j: nat, m: nat)
    requires 1 <= j < |s| && j < m && Greater(s[j - 1].val, s[j].val) && Largest(s, j - 1) && TailSorted(s, m)
    ensures Largest(Swapped(s, j), j) && TailSorted(Swapped(s, j), m) && StablyEqual(Swapped(s, j), s)
  {
    GreaterIsAsymmetric(s[j - 1].val, s[j].val);
    SwapIsStable(s, j);
  }

  lemma StepAdvances(s: seq<Node>, j: nat)
    requires 1 <= j < |s| && !Greater(s[j - 1].val, s[j].val) && Largest(s, j - 1)
    ensures Largest(s, j)
  {
    forall p | 0 <= p < j
      ensures !Greater(s[p].val, s[j].val)
    {
      if p < j - 1 {
        NotGreaterIsTransitive(s[p].val, s[j - 1].val, s[j].val);
      }
    }
  }

  lemma PassDone(s: seq<Node>, m: nat)
    requires m < |s| && Largest(s, m) && TailSorted(s, m + 1)
    ensures TailSorted(s, m)
  {
  }

  lemma LargestOfOne(s: seq<Node>)
    ensures s != [] ==> Largest(s, 0)
  {
  }

  lemma StablyEqualToItself(a: seq<Node>)
    ensures StablyEqual(a, a)
  {
  }

  lemma StablyEqualTransitive(a: seq<Node>, b: seq<Node>, c: seq<Node>)
    requires StablyEqual(a, b) && StablyEqual(b, c)
    ensures StablyEqual(a, c)
  {
  }
}
