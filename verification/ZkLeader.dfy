/** `check_leadership` and the watcher of zkleader.cc over its two globals. */
module ZkLeader {
  import opened Decimal
  import opened ZkSearch

  // ---- std::sort and std::find on strings

  ghost predicate Sorted(s: seq<string>) {
    forall i, j | 0 <= i < j < |s| :: !LexLess(s[j], s[i])
  }

  lemma {:induction false} LexTotal(a: string, b: string)
    ensures LexLess(a, b) || LexLess(b, a) <==> a != b
    ensures !(LexLess(a, b) && LexLess(b, a))
  {
    if a != [] && b != [] {
      LexTotal(a[1..], b[1..]);
      assert a == [a[0]] + a[1..] && b == [b[0]] + b[1..];
    }
  }

  lemma {:induction false} LexTransitive(a: string, b: string, c: string)
    requires LexLess(a, b) && !LexLess(c, b)
    ensures LexLess(a, c)
  {
    LexTotal(b, c);
    if a != [] && b != c {
      if a[0] == b[0] && b[0] == c[0] {
        LexTotal(b[1..], c[1..]);
        LexTransitive(a[1..], b[1..], c[1..]);
      }
    }
  }

  function Insert(x: string, s: seq<string>): (r: seq<string>)
    ensures multiset(r) == multiset(s) + multiset{x}
  {
    if s == [] then [x]
    else if LexLess(s[0], x) then
      assert s == [s[0]] + s[1..];
      [s[0]] + Insert(x, s[1..])
    else [x] + s
  }

  function Sort(s: seq<string>): (r: seq<string>)
    ensures multiset(r) == multiset(s)
  {
    if s == [] then []
    else
      assert s == [s[0]] + s[1..];
      Insert(s[0], Sort(s[1..]))
  }

  lemma {:induction false} InsertSorted(x: string, s: seq<string>)
    requires Sorted(s)
    ensures Sorted(Insert(x, s))
  {
    if s != [] {
      if LexLess(s[0], x) {
        var t := Insert(x, s[1..]);
        InsertSorted(x, s[1..]);
        forall i | 0 <= i < |t| ensures !LexLess(t[i], s[0]) {
          assert t[i] in multiset(t);
          assert t[i] == x || t[i] in s[1..];
          LexTotal(s[0], x);
        }
      } else {
        forall i | 0 <= i < |s| ensures !LexLess(s[i], x) {
          LexTotal(s[i], x);
          if LexLess(s[i], x) && i > 0 {
            LexTotal(s[0], s[i]);
            LexTransitive(s[i], x, s[0]);
          }
        }
      }
    }
  }

  lemma {:induction false} SortSorts(s: seq<string>)
    ensures Sorted(Sort(s))
  {
    if s != [] {
      SortSorts(s[1..]);
      InsertSorted(s[0], Sort(s[1..]));
    }
  }

  lemma SortKeeps(s: seq<string>, x: string)
    ensures x in Sort(s) <==> x in s
  {
    assert x in multiset(Sort(s)) <==> x in multiset(s);
  }

  /** `it` is what `std::find` returns for `x`: its first position, or the end. */
  ghost predicate IsFirst(s: seq<string>, x: string, it: nat) {
    it <= |s| && x !in s[..it] && (it < |s| ==> s[it] == x)
  }

  /** In a sorted vector the element before the first `x` is the greatest one below `x`. */
  lemma BeforeFirst(s: seq<string>, x: string, it: nat, y: string)
    requires Sorted(s) && IsFirst(s, x, it) && it < |s|
    requires y in s && LexLess(y, x)
    ensures it > 0 && LexLess(s[it - 1], x) && !LexLess(s[it - 1], y)
  {
    var j :| 0 <= j < |s| && s[j] == y;
    LexTotal(x, y);
    assert j < it;
    assert s[it - 1] in s[..it];
    LexTotal(s[it - 1], x);
    LexTotal(s[it - 1], y);
  }

  lemma SortLists(children: seq<string>, prefix: string, S: set<nat>)
    requires Lists(children, prefix, S)
    ensures Lists(Sort(children), prefix, S)
  {
    var s := Sort(children);
    forall v | v in S ensures Name(prefix, v) in s {
      SortKeeps(children, Name(prefix, v));
    }
    forall i | 0 <= i < |s| ensures NamesOneOf(s[i], prefix, S) {
      SortKeeps(children, s[i]);
      var j :| 0 <= j < |children| && children[j] == s[i];
      assert NamesOneOf(children[j], prefix, S);
    }
  }

  lemma NumberAt(s: seq<string>, prefix: string, S: set<nat>, i: nat) returns (v: nat)
    requires Lists(s, prefix, S) && i < |s|
    ensures v in S && v <= MAX_SEQ && s[i] == Name(prefix, v)
  {
    assert NamesOneOf(s[i], prefix, S);
    v :| v in S && s[i] == Name(prefix, v);
  }

  lemma FoundIffMember(s: seq<string>, prefix: string, S: set<nat>, m: nat, it: nat)
    requires Lists(s, prefix, S) && m <= MAX_SEQ
    requires IsFirst(s, Name(prefix, m), it)
    ensures it < |s| <==> m in S
  {
    if it < |s| {
      var v := NumberAt(s, prefix, S, it);
      NameInjective(prefix, v, m);
    } else {
      assert s[..it] == s;
    }
  }

  /** Own name found: the name before it belongs to the greatest smaller number. */
  lemma SortVerdict(s: seq<string>, prefix: string, S: set<nat>, m: nat, it: nat)
    requires Sorted(s) && Lists(s, prefix, S) && m in S
    requires IsFirst(s, Name(prefix, m), it)
    ensures it == 0 <==> VerdictOf(S, m).Smallest?
    ensures it > 0 ==> it <= |s| && s[it - 1] == Name(prefix, VerdictOf(S, m).p)
  {
    var x := Name(prefix, m);
    FoundIffMember(s, prefix, S, m, it);
    forall v | v in S && v < m ensures it > 0 && !LexLess(s[it - 1], Name(prefix, v)) {
      NameOrder(prefix, v, m);
      BeforeFirst(s, x, it, Name(prefix, v));
    }
    if it > 0 {
      var p := NumberAt(s, prefix, S, it - 1);
      assert p < m by {
        assert s[it - 1] in s[..it];
        assert !LexLess(x, s[it - 1]);
        NameOrder(prefix, m, p);
      }
      forall v | v in S && v < m ensures v <= p {
        NameOrder(prefix, p, v);
      }
      VerdictUnique(S, m, Watch(p));
    }
  }

  /** Own name missing: `std::prev(end)` is the last name, that of the greatest number. */
  lemma SortLast(s: seq<string>, prefix: string, S: set<nat>)
    requires Sorted(s) && Lists(s, prefix, S)
    ensures s == [] <==> S == {}
    ensures S != {} ==> s[|s| - 1] == Name(prefix, Greatest(S))
  {
    if s != [] {
      var p := NumberAt(s, prefix, S, |s| - 1);
      forall v | v in S ensures v <= p {
        assert Name(prefix, v) in s;
        LastIsGreatest(s, Name(prefix, v));
        NameOrder(prefix, p, v);
      }
      assert p == Greatest(S);
    }
  }

  lemma LastIsGreatest(s: seq<string>, y: string)
    requires Sorted(s) && y in s
    ensures !LexLess(s[|s| - 1], y)
  {
    LexTotal(y, y);
  }

  /** sort/find/prev as an action on sequence numbers. */
  lemma SortIsLeaderAction(children: seq<string>, prefix: string, S: set<nat>, m: nat, it: nat)
    requires Lists(children, prefix, S) && m <= MAX_SEQ
    requires IsFirst(Sort(children), Name(prefix, m), it)
    ensures it == 0 <==> LeaderAction(S, m) == Lead
    ensures it > 0 ==> LeaderAction(S, m).AskExists? && Sort(children)[it - 1] == Name(prefix, LeaderAction(S, m).p)
  {
    SortSorts(children);
    SortLists(children, prefix, S);
    FoundIffMember(Sort(children), prefix, S, m, it);
    if m in S {
      SortVerdict(Sort(children), prefix, S, m, it);
    } else {
      SortLast(Sort(children), prefix, S);
    }
  }

  /**
   The two predecessor searches agree: on any two listings of the same znodes, the
   sort finds its own name first exactly when the scan meets no smaller number, and
   otherwise the name before it carries the greatest smaller number the scan keeps.
   */
  lemma SearchesAgree(lockNames: seq<string>, electionNames: seq<string>, S: set<nat>, m: nat, it: nat)
    requires Lists(lockNames, "", S) && Lists(electionNames, NODE, S) && m in S
    requires IsFirst(Sort(electionNames), Name(NODE, m), it)
    ensures it == 0 <==> forall v | v in Numbers(lockNames) :: m <= v
    ensures forall j | it > 0 && 0 <= j < |lockNames| && GreatestBelow(Numbers(lockNames), m, ScanInt(lockNames[j])) ::
              Sort(electionNames)[it - 1] == NODE + lockNames[j]
  {
    SortSorts(electionNames);
    SortLists(electionNames, NODE, S);
    SortVerdict(Sort(electionNames), NODE, S, m, it);
    NumbersOfListing(lockNames, S);
    forall j | it > 0 && 0 <= j < |lockNames| && GreatestBelow(S, m, ScanInt(lockNames[j]))
      ensures Sort(electionNames)[it - 1] == NODE + lockNames[j]
    {
      var v := ListedNumber(lockNames, S, j);
      VerdictUnique(S, m, Watch(v));
      assert lockNames[j] == Numeral(v);
    }
  }

  // ---- The decision, from the children alone

  ghost predicate JustBelow(names: seq<string>, own: string, y: string) {
    y in names && LexLess(y, own) && forall x | x in names && LexLess(x, own) :: !LexLess(y, x)
  }

  ghost predicate LastOf(names: seq<string>, y: string) { y in names && forall x | x in names :: !LexLess(y, x) }

  /** Lead if nobody is before; watch the one just before, or the last if the own node is not listed. */
  ghost predicate Decides(children: seq<string>, own: string, call: Call) {
    if own in children && !(forall x | x in children :: !LexLess(x, own)) then
      exists y :: JustBelow(children, own, y) && call == Exists(ELECTION_DIR + y)
    else if own !in children && children != [] then
      exists y :: LastOf(children, y) && call == Exists(ELECTION_DIR + y)
    else call == Leading
  }

  lemma SortDecides(children: seq<string>, own: string, it: nat)
    requires IsFirst(Sort(children), own, it)
    ensures Decides(children, own, if it == 0 then Leading else Exists(ELECTION_DIR + Sort(children)[it - 1]))
  {
    var s := Sort(children);
    SortSorts(children);
    SortKeeps(children, own);
    assert forall x :: x in s <==> x in children by {
      forall x ensures x in s <==> x in children {
        SortKeeps(children, x);
      }
    }
    assert s == [] <==> children == [] by {
      assert multiset(s) == multiset(children);
      assert |s| == |multiset(s)| && |children| == |multiset(children)|;
    }
    if own in s {
      FoundDecides(s, own, it);
    } else if s != [] {
      assert s[..|s|] == s;
      forall x | x in s ensures !LexLess(s[|s| - 1], x) {
        LastIsGreatest(s, x);
      }
      assert LastOf(children, s[it - 1]);
    }
  }

  lemma FoundDecides(s: seq<string>, own: string, it: nat)
    requires Sorted(s) && IsFirst(s, own, it) && own in s
    ensures it == 0 <==> forall x | x in s :: !LexLess(x, own)
    ensures it > 0 ==> it <= |s| && JustBelow(s, own, s[it - 1])
  {
    assert s[..|s|] == s;
    if it > 0 {
      assert s[it - 1] in s[..it];
      LexTotal(s[it - 1], own);
    }
    forall x | x in s && LexLess(x, own) ensures it > 0 && !LexLess(s[it - 1], x) {
      BeforeFirst(s, own, it, x);
    }
  }

  class LeaderClient {
    var currentNode: string
    var predecessorNode: string

    constructor ()
      ensures currentNode == "" && predecessorNode == ""
    {
      currentNode, predecessorNode := "", "";
    }

    /** `create_ephemeral_sequential_node`, up to its call of `check_leadership`. */
    method OnCreated(path: string) returns (call: Call)
      modifies this`currentNode
      ensures currentNode == path && call == GetChildren
    {
      currentNode := path;
      call := GetChildren;
    }

    /** `check_leadership`. */
    method CheckLeadership(rc: int, children: seq<string>) returns (call: Call)
      requires |ELECTION_DIR| <= |currentNode|
      modifies this`predecessorNode
      ensures rc != 0 ==> call == NoCall
      ensures !call.Exists? ==> predecessorNode == old(predecessorNode)
      ensures call.Exists? ==> predecessorNode == call.path
      ensures forall S: set<nat>, m: nat | rc == 0 && Lists(children, NODE, S) && m <= MAX_SEQ
                                           && currentNode == ELECTION_DIR + Name(NODE, m) ::
                call == Render(ELECTION_DIR, NODE, LeaderAction(S, m))
      ensures rc == 0 ==> Decides(children, currentNode[|ELECTION_DIR|..], call)
    {
      if rc != 0 {
        return NoCall;
      }
      var nodes: seq<string> := [];
      for i := 0 to |children|
        invariant nodes == children[..i]
      {
        nodes := nodes + [children[i]];
      }
      assert nodes == children;
      nodes := Sort(nodes);

      var me := currentNode[|ELECTION_DIR|..];
      var it := 0;
      while it < |nodes| && nodes[it] != me
        invariant it <= |nodes| && me !in nodes[..it]
      {
        it := it + 1;
      }
      ghost var sorted := nodes;
      forall S: set<nat>, m: nat | Lists(children, NODE, S) && m <= MAX_SEQ
                                   && currentNode == ELECTION_DIR + Name(NODE, m)
        ensures it == 0 ==> Leading == Render(ELECTION_DIR, NODE, LeaderAction(S, m))
        ensures it > 0 ==> Exists(ELECTION_DIR + sorted[it - 1]) == Render(ELECTION_DIR, NODE, LeaderAction(S, m))
      {
        assert me == Name(NODE, m);
        SortIsLeaderAction(children, NODE, S, m, it);
      }
      assert IsFirst(nodes, me, it);
      SortDecides(children, me, it);
      if it == 0 {
        call := Leading;
      } else {
        predecessorNode := ELECTION_DIR + nodes[it - 1];
        call := Exists(predecessorNode);
      }
    }

    /** `watcher_callback`: only a deletion of the watched node matters. */
    method OnEvent(deleted: bool, path: string) returns (call: Call)
      ensures call == if deleted && path == predecessorNode then GetChildren else NoCall
    {
      call := if deleted && path == predecessorNode then GetChildren else NoCall;
    }
  }
}
