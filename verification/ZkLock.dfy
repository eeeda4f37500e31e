/** The callbacks of zklock.cc over its global `zmt` and `quit`. */
module ZkLock {
  import opened Options
  import opened Decimal
  import opened ZkSearch

  /** `x` is one of the strings, and scans to `v`. */
  ghost predicate Names(strings: seq<string>, x: string, v: nat) { x in strings && ScanInt(x) == v }

  /** The path deleted is that of the string that scans to the own number; there may be none. */
  ghost predicate Deletes(strings: seq<string>, seqMe: nat, call: Call) {
    exists x :: call == Delete(LOCK_DIR + x)
                && if seqMe in Numbers(strings) then Names(strings, x, seqMe) else x == "(null)"
  }

  ghost predicate Watches(strings: seq<string>, seqWatch: nat, watch: string) {
    exists x :: watch == LOCK_DIR + x && Names(strings, x, seqWatch)
  }

  class LockClient {
    var seqMe: nat       // zmt.seq_me
    var seqWatch: nat    // zmt.seq_watch
    var watch: string    // zmt.watch
    var quit: bool

    constructor ()
      ensures seqMe == 0 && seqWatch == 0 && watch == "" && !quit
    {
      seqMe, seqWatch, watch, quit := 0, 0, "", false;
    }

    /** `zk_create_lock_res1_es`. */
    method OnCreate(rc: int, value: string) returns (call: Call)
      requires rc == 0 ==> LOCK_DIR <= value
      modifies this`seqMe
      ensures rc != 0 ==> call == NoCall && seqMe == old(seqMe)
      ensures rc == 0 ==> seqMe == ScanInt(value[|LOCK_DIR|..])
      ensures forall v: nat | rc == 0 && v <= MAX_SEQ && value == LOCK_DIR + Name("", v) ::
                seqMe == v && call == Render(LOCK_DIR, "", CreateAction(v))
      ensures rc == 0 && ScanInt(value[|LOCK_DIR|..]) == 0 ==> call == Delete(value)
      ensures rc == 0 && ScanInt(value[|LOCK_DIR|..]) > 0 ==> call == GetChildren
    {
      call := NoCall;
      if rc == 0 {
        var number := ScanInt(value[|LOCK_DIR|..]);
        seqMe := number;
        call := if number > 0 then GetChildren else Delete(value);
        forall v: nat | v <= MAX_SEQ && value == LOCK_DIR + Name("", v)
          ensures number == v && call == Render(LOCK_DIR, "", CreateAction(v))
        {
          assert value[|LOCK_DIR|..] == Name("", v);
          NumberOfName(v);
        }
      }
    }

    /** `zk_get_children_lock_res1`: one pass over the children, in whatever order they come. */
    method OnChildren(rc: int, strings: seq<string>) returns (call: Call)
      modifies this`seqWatch, this`watch
      ensures rc != 0 ==> call == NoCall && watch == old(watch) && seqWatch == old(seqWatch)
      ensures rc == 0 && (forall v | v in Numbers(strings) :: seqMe <= v) ==>
                call.Delete? && watch == old(watch) && seqWatch == old(seqWatch)
      ensures rc == 0 && (forall v | v in Numbers(strings) :: seqMe <= v) ==> Deletes(strings, seqMe, call)
      ensures rc == 0 && !(forall v | v in Numbers(strings) :: seqMe <= v) ==>
                call == Exists(watch) && GreatestBelow(Numbers(strings), seqMe, seqWatch)
      ensures rc == 0 && !(forall v | v in Numbers(strings) :: seqMe <= v) ==> Watches(strings, seqWatch, watch)
      ensures forall S: set<nat> | rc == 0 && Lists(strings, "", S) ::
                && call == Render(LOCK_DIR, "", LockAction(S, seqMe))
                && (call.Exists? ==> seqWatch == VerdictOf(S, seqMe).p && watch == call.path)
    {
      call := NoCall;
      if rc == 0 {
        var n, valueSelf, valueOther := Scan(strings);
        if n == 0 {
          var self := if valueSelf.Some? then valueSelf.value else "(null)";
          call := Delete(LOCK_DIR + self);
          assert valueSelf.Some? <==> seqMe in Numbers(strings);
        } else {
          assert Names(strings, valueOther.value, seqWatch);
          watch := LOCK_DIR + valueOther.value;
          call := Exists(watch);
        }
        ghost var scan := if n == 0 then Smallest else Watch(seqWatch);
        forall S: set<nat> | Lists(strings, "", S)
          ensures call == Render(LOCK_DIR, "", LockAction(S, seqMe)) && scan == VerdictOf(S, seqMe)
        {
          ScanIsLockAction(strings, S, seqMe, scan, valueSelf, valueOther);
        }
      }
    }

    /** Its loop: the greatest smaller number so far, who has it, and the client's own name. */
    method Scan(strings: seq<string>) returns (n: nat, valueSelf: Option<string>, valueOther: Option<string>)
      modifies this`seqWatch
      ensures n == 0 ==> seqWatch == old(seqWatch)
      ensures IsVerdict(Numbers(strings), seqMe, if n == 0 then Smallest else Watch(seqWatch))
      ensures n > 0 ==> valueOther.Some? && valueOther.value in strings && ScanInt(valueOther.value) == seqWatch
      ensures valueSelf.Some? ==> valueSelf.value in strings && ScanInt(valueSelf.value) == seqMe
      ensures valueSelf.None? ==> forall j | 0 <= j < |strings| :: ScanInt(strings[j]) != seqMe
    {
      n, valueSelf, valueOther := 0, None, None;
      ghost var other: nat, self: nat := 0, 0;   // where the two names are
      var i := 0;
      while i < |strings|
        invariant 0 <= i <= |strings|
        invariant n == 0 ==> seqWatch == old(seqWatch) && forall j | 0 <= j < i :: seqMe <= ScanInt(strings[j])
        invariant n > 0 ==> other < i && valueOther == Some(strings[other])
        invariant n > 0 ==> ScanInt(strings[other]) == seqWatch < seqMe
        invariant n > 0 ==> forall j | 0 <= j < i && ScanInt(strings[j]) < seqMe :: ScanInt(strings[j]) <= seqWatch
        invariant valueSelf.Some? ==> self < i && valueSelf == Some(strings[self]) && ScanInt(strings[self]) == seqMe
        invariant valueSelf.None? ==> forall j | 0 <= j < i :: ScanInt(strings[j]) != seqMe
      {
        var v := ScanInt(strings[i]);
        if v < seqMe {
          if n == 0 {
            seqWatch := v;
            valueOther := Some(strings[i]);
            other := i;
            n := n + 1;
          } else if n > 0 && v > seqWatch {
            seqWatch := v;
            valueOther := Some(strings[i]);
            other := i;
            n := n + 1;
          }
        } else if v == seqMe {
          valueSelf := Some(strings[i]);
          self := i;
        }
        i := i + 1;
      }
      assert n > 0 ==> seqWatch in Numbers(strings);
    }

    /** `zk_watcher_disconnect`: the event type is not looked at, only the path. */
    method OnEvent(path: string) returns (call: Call)
      ensures call == if path == watch then GetChildren else NoCall
    {
      call := if watch == path then GetChildren else NoCall;
    }

    /** `zk_delete_lock_res1_children`. */
    method OnDeleted()
      modifies this`quit
      ensures quit
    {
      quit := true;
    }
  }

  /** In a listing, the only string that scans to `v` is the name of `v`. */
  lemma NameFromNumber(strings: seq<string>, S: set<nat>, v: nat, found: Option<string>)
    requires Lists(strings, "", S)
    requires found.Some? ==> found.value in strings && ScanInt(found.value) == v
    requires found.None? ==> forall j | 0 <= j < |strings| :: ScanInt(strings[j]) != v
    ensures found.Some? ==> v in S && found.value == Name("", v)
    ensures found.None? ==> v !in S
  {
    if found.Some? {
      var i :| 0 <= i < |strings| && strings[i] == found.value;
      var u := ListedNumber(strings, S, i);
    } else if v in S {
      NumberOfName(v);
      assert false;
    }
  }

  lemma ScanIsLockAction(strings: seq<string>, S: set<nat>, me: nat, scan: Verdict,
                         self: Option<string>, other: Option<string>)
    requires Lists(strings, "", S) && IsVerdict(Numbers(strings), me, scan)
    requires self.Some? ==> self.value in strings && ScanInt(self.value) == me
    requires self.None? ==> forall j | 0 <= j < |strings| :: ScanInt(strings[j]) != me
    requires scan.Watch? ==> other.Some? && other.value in strings && ScanInt(other.value) == scan.p
    ensures scan == VerdictOf(S, me)
    ensures scan.Smallest? ==> Render(LOCK_DIR, "", LockAction(S, me))
                               == Delete(LOCK_DIR + if self.Some? then self.value else "(null)")
    ensures scan.Watch? ==> Render(LOCK_DIR, "", LockAction(S, me)) == Exists(LOCK_DIR + other.value)
  {
    NumbersOfListing(strings, S);
    VerdictUnique(S, me, scan);
    NameFromNumber(strings, S, me, self);
    if scan.Watch? {
      NameFromNumber(strings, S, scan.p, other);
    }
  }
}
