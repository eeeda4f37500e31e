/**
 How a client finds its place among the ephemeral sequential znodes of a
 directory: the one-pass numeric scan of zklock.cc, the sort/find/prev of
 zkleader.cc, and the reference both are measured against.
 */
module ZkSearch {
  import opened Options
  import opened Decimal

  const LOCK_DIR := "/lock/res1/"
  const ELECTION_DIR := "/election/"
  const NODE := "node"

  /** Sequence numbers are non-negative 32-bit integers, written with ten digits. */
  const MAX_SEQ: nat := 0x7fff_ffff

  /** The numeral of a sequence number: ten digits. */
  function Numeral(v: nat): (s: string)
    ensures |s| == 10 && AllDigits(s)
  {
    Pad(v, Width(v))
  }

  // A function of the number, so that its numeral is not unfolded digit by digit.
  function Width(v: nat): (w: nat)
    ensures w == 10
  {
    10
  }

  function Name(prefix: string, v: nat): string { prefix + Numeral(v) }

  ghost predicate NamesOneOf(s: string, prefix: string, S: set<nat>) {
    exists v :: v in S && s == Name(prefix, v)
  }

  /** `strings` names exactly the znodes of `S`, in any order. */
  ghost predicate Lists(strings: seq<string>, prefix: string, S: set<nat>) {
    && (forall v | v in S :: v <= MAX_SEQ && Name(prefix, v) in strings)
    && (forall i | 0 <= i < |strings| :: NamesOneOf(strings[i], prefix, S))
  }

  // ---- The reference: the greatest smaller number, if there is one

  datatype Verdict = Smallest | Watch(p: nat)

  ghost predicate GreatestBelow(S: set<nat>, m: nat, p: nat) {
    p in S && p < m && forall v | v in S && v < m :: v <= p
  }

  ghost predicate IsVerdict(S: set<nat>, m: nat, r: Verdict) {
    match r
    case Smallest => forall v | v in S :: m <= v
    case Watch(p) => GreatestBelow(S, m, p)
  }

  ghost function Greatest(S: set<nat>): (p: nat)
    requires S != {}
    ensures p in S && forall v | v in S :: v <= p
  {
    var x :| x in S;
    if S == {x} then x
    else
      var q := Greatest(S - {x});
      assert S == (S - {x}) + {x};
      if q > x then q else x
  }

  ghost function VerdictOf(S: set<nat>, m: nat): (r: Verdict)
    ensures IsVerdict(S, m, r)
  {
    var below := set v | v in S && v < m;
    if below == {} then
      assert forall v | v in S :: v !in below;
      Smallest
    else
      assert forall v | v in S && v < m :: v in below;
      Watch(Greatest(below))
  }

  lemma VerdictUnique(S: set<nat>, m: nat, r: Verdict)
    requires IsVerdict(S, m, r)
    ensures r == VerdictOf(S, m)
  {
  }

  /**
   The children callback judges by the stored `seq_me`. Its verdict is right on
   every children set that contains the client's own number `m` exactly when the
   stored number is `m`: before the create completion it is still 0.
   */
  lemma StoredNumberExact(stored: nat, m: nat)
    ensures (forall S: set<nat> | m in S :: VerdictOf(S, stored).Smallest? <==> VerdictOf(S, m).Smallest?)
            <==> stored == m
  {
    if stored < m {
      var S := {stored, m};
      assert stored in S && m in S;
      assert VerdictOf(S, stored).Smallest? && !VerdictOf(S, m).Smallest?;
    } else if m < stored {
      var S := {m};
      assert m in S;
      assert !VerdictOf(S, stored).Smallest? && VerdictOf(S, m).Smallest?;
    }
  }

  // ---- What a client asks the server to do next

  datatype Action =
    | Nothing
    | AskChildren
    | AskExists(p: nat)
    | AskDelete(target: Option<nat>)  // the lock is held: release it
    | Lead                            // leadership is assumed

  /** Number 0 is the smallest there can be, so its owner does not look at the children. */
  function CreateAction(v: nat): Action {
    if v > 0 then AskChildren else AskDelete(Some(v))
  }

  ghost function LockAction(S: set<nat>, me: nat): Action {
    match VerdictOf(S, me)
    case Smallest => AskDelete(if me in S then Some(me) else None)
    case Watch(p) => AskExists(p)
  }

  ghost function LeaderAction(S: set<nat>, me: nat): Action {
    if me in S then
      match VerdictOf(S, me)
      case Smallest => Lead
      case Watch(p) => AskExists(p)
    else if S == {} then Lead
    else AskExists(Greatest(S))
  }

  /** The same requests as they are put to the ZooKeeper client library. */
  datatype Call = NoCall | GetChildren | Delete(path: string) | Exists(path: string) | Leading

  function Render(dir: string, prefix: string, a: Action): Call {
    match a
    case Nothing => NoCall
    case AskChildren => GetChildren
    case AskExists(p) => Exists(dir + Name(prefix, p))
    case AskDelete(Some(v)) => Delete(dir + Name(prefix, v))
    case AskDelete(None) => Delete(dir + "(null)")
    case Lead => Leading
  }

  // ---- Names

  lemma NumberOfName(v: nat)
    requires v <= MAX_SEQ
    ensures ScanInt(Name("", v)) == v
  {
    assert Pow10(10) == 10_000_000_000;
    assert Name("", v) == Numeral(v);
    ScanIntOfPad(v, 10);
  }

  lemma NameOrder(prefix: string, u: nat, v: nat)
    requires u <= MAX_SEQ && v <= MAX_SEQ
    ensures LexLess(Name(prefix, u), Name(prefix, v)) <==> u < v
  {
    assert Pow10(10) == 10_000_000_000;
    LexLessPrefix(prefix, Numeral(u), Numeral(v));
    PadOrder(u, v, 10);
  }

  lemma NameInjective(prefix: string, u: nat, v: nat)
    requires u <= MAX_SEQ && v <= MAX_SEQ
    requires Name(prefix, u) == Name(prefix, v)
    ensures u == v
  {
    NameOrder(prefix, u, v);
    NameOrder(prefix, v, u);
  }

  function Numbers(strings: seq<string>): set<nat> {
    set i | 0 <= i < |strings| :: ScanInt(strings[i])
  }

  lemma ListedNumber(strings: seq<string>, S: set<nat>, i: nat) returns (v: nat)
    requires Lists(strings, "", S) && i < |strings|
    ensures v in S && strings[i] == Name("", v) && ScanInt(strings[i]) == v
  {
    assert NamesOneOf(strings[i], "", S);
    v :| v in S && strings[i] == Name("", v);
    NumberOfName(v);
  }

  lemma NumbersOfListing(strings: seq<string>, S: set<nat>)
    requires Lists(strings, "", S)
    ensures Numbers(strings) == S
  {
    forall n | n in Numbers(strings) ensures n in S {
      var i :| 0 <= i < |strings| && ScanInt(strings[i]) == n;
      var v := ListedNumber(strings, S, i);
    }
    forall v | v in S ensures v in Numbers(strings) {
      var i :| 0 <= i < |strings| && strings[i] == Name("", v);
      NumberOfName(v);
    }
  }
}
