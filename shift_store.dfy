/**
 * The list of recorded shifts and the two ways the list changes:
 * saving the open shift (merge by name) and raising an entry's time.
 */
module ShiftStore {

  /** A named work period with its accumulated seconds. */
  datatype Shift = Shift(name: string, time: nat)

  /** Some entry of `s` carries `name`. */
  predicate HasName(s: seq<Shift>, name: string)
  {
    exists j :: 0 <= j < |s| && s[j].name == name
  }

  /** `k` is the first index of `s` whose entry carries `name`. */
  predicate FirstWithName(s: seq<Shift>, name: string, k: int)
  {
    0 <= k < |s| && s[k].name == name &&
    forall j :: 0 <= j < k ==> s[j].name != name
  }

  /** No two entries of `s` carry the same name. */
  predicate DistinctNames(s: seq<Shift>)
  {
    forall i, j :: 0 <= i < j < |s| ==> s[i].name != s[j].name
  }

  /** The set of names recorded in `s`. */
  function Names(s: seq<Shift>): set<string>
  {
    set i | 0 <= i < |s| :: s[i].name
  }

  /**
   * `Array.prototype.findIndex` with the name-equality test: the first index
   * whose entry carries `name`, or -1 when there is none.
   */
  function FindIndex(s: seq<Shift>, name: string): (r: int)
    ensures -1 <= r < |s|
    ensures r == -1 <==> !HasName(s, name)
    ensures r != -1 ==> FirstWithName(s, name, r)
  {
    if |s| == 0 then -1
    else if s[0].name == name then 0
    else
      var k := FindIndex(s[1..], name);
      if k == -1 then
        assert forall j :: 1 <= j < |s| ==> s[j] == s[1..][j - 1];
        -1
      else
        assert s[1..][k] == s[k + 1];
        assert forall j :: 1 <= j <= k ==> s[j] == s[1..][j - 1];
        k + 1
  }

  /**
   * Saving shift `c` into `s`: the first entry with `c`'s name is replaced
   * whole by `c`; when no entry has that name, `c` is appended.
   */
  function Merge(s: seq<Shift>, c: Shift): (r: seq<Shift>)
    ensures HasName(s, c.name) ==>
      |r| == |s| &&
      forall k :: 0 <= k < |s| ==> r[k] == if FirstWithName(s, c.name, k) then c else s[k]
    ensures !HasName(s, c.name) ==> r == s + [c]
  {
    var i := FindIndex(s, c.name);
    if i != -1 then s[i := c] else s + [c]
  }

  /**
   * The manual time edit of entry `i`: its time becomes `newTime` only when
   * that is strictly larger than the stored time.
   */
  function RaiseTime(s: seq<Shift>, i: nat, newTime: int): (r: seq<Shift>)
    requires i < |s|
    ensures |r| == |s|
    ensures forall j :: 0 <= j < |s| && j != i ==> r[j] == s[j]
    ensures r[i].name == s[i].name
    ensures newTime > s[i].time ==> r[i].time == newTime
    ensures newTime <= s[i].time ==> r[i] == s[i]
  {
    if newTime > s[i].time then s[i := s[i].(time := newTime)] else s
  }

  /** After a save the saved shift is recorded, and only it is new. */
  lemma MergeRecordsShift(s: seq<Shift>, c: Shift)
    ensures c in Merge(s, c)
    ensures Names(Merge(s, c)) == Names(s) + {c.name}
  {
    var r := Merge(s, c);
    if HasName(s, c.name) {
      var k := FindIndex(s, c.name);
      assert r[k] == c;
      forall n | n in Names(r) ensures n in Names(s) + {c.name} {
        var j :| 0 <= j < |r| && r[j].name == n;
        assert r[j] == if FirstWithName(s, c.name, j) then c else s[j];
      }
      forall n | n in Names(s) ensures n in Names(r) {
        var j :| 0 <= j < |s| && s[j].name == n;
        assert r[j] == if FirstWithName(s, c.name, j) then c else s[j];
        assert r[j].name == n;
      }
    } else {
      assert r[|s|] == c;
      forall n | n in Names(r) ensures n in Names(s) + {c.name} {
        var j :| 0 <= j < |r| && r[j].name == n;
        if j < |s| { assert r[j] == s[j]; }
      }
      forall n | n in Names(s) ensures n in Names(r) {
        var j :| 0 <= j < |s| && s[j].name == n;
        assert r[j] == s[j];
      }
    }
  }

  /** Replace-on-match never creates a duplicate name. */
  lemma MergeKeepsNamesDistinct(s: seq<Shift>, c: Shift)
    requires DistinctNames(s)
    ensures DistinctNames(Merge(s, c))
  {
  }

  /**
   * Saving twice under the same name leaves what the second save alone would
   * leave: the second save replaces the first, it never appends a copy.
   */
  lemma MergeSameNameTwice(s: seq<Shift>, a: Shift, b: Shift)
    requires a.name == b.name
    ensures Merge(Merge(s, a), b) == Merge(s, b)
    ensures |Merge(Merge(s, a), b)| == |Merge(s, a)|
  {
    var k := FindIndex(s, a.name);
    var m := Merge(s, a);
    if k != -1 {
      assert m == s[k := a];
      assert FirstWithName(m, b.name, k);
      assert FindIndex(m, b.name) == k;
      assert m[k := b] == s[k := b];
    } else {
      assert m == s + [a];
      assert FirstWithName(m, b.name, |s|);
      assert FindIndex(m, b.name) == |s|;
      assert m[|s| := b] == s + [b];
    }
  }

  /** After a save, looking the saved name up again finds exactly the saved shift. */
  lemma MergeThenFind(s: seq<Shift>, c: Shift)
    ensures var r := Merge(s, c); var k := FindIndex(r, c.name); k != -1 && r[k] == c
  {
    var r := Merge(s, c);
    if HasName(s, c.name) {
      assert r[FindIndex(s, c.name)] == c;
    } else {
      assert r[|s|] == c;
    }
  }

  /** A time edit touches no name, so it keeps the names and their distinctness. */
  lemma RaiseTimeKeepsNames(s: seq<Shift>, i: nat, newTime: int)
    requires i < |s|
    ensures Names(RaiseTime(s, i, newTime)) == Names(s)
    ensures DistinctNames(s) ==> DistinctNames(RaiseTime(s, i, newTime))
  {
  }

  /** Repeating a time edit changes nothing more, and the edited time never decreases. */
  lemma RaiseTimeIdempotent(s: seq<Shift>, i: nat, newTime: int)
    requires i < |s|
    ensures RaiseTime(RaiseTime(s, i, newTime), i, newTime) == RaiseTime(s, i, newTime)
    ensures RaiseTime(s, i, newTime)[i].time >= s[i].time
  {
  }
}
