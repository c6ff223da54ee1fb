/** The bitmaps of the priority lists that are not empty (rt-thread/src/scheduler_up.c, scheduler_mp.c),
    one word for 32 priorities or a word over 32 bytes for 256. */
module ReadyIndex {

  /** A bitmap word or byte as the sequence of its bits, least significant first. */
  type Bits = seq<bool>

  ghost predicate Lowest(b: Bits, k: nat) {
    k < |b| && b[k] && forall j :: 0 <= j < k ==> !b[j]
  }

  /** __rt_ffs: 0 when no bit is set, else one more than the index of the lowest. */
  function Ffs(b: Bits): (r: nat)
    ensures r == 0 <==> forall j :: 0 <= j < |b| ==> !b[j]
    ensures r > 0 ==> Lowest(b, r - 1)
  {
    if b == [] then 0
    else if b[0] then 1
    else
      var r := Ffs(b[1..]);
      assert forall j :: 1 <= j < |b| ==> b[j] == b[1..][j - 1];
      if r == 0 then 0 else r + 1
  }

  datatype Index =
    | OneLevel(group: Bits)
    | TwoLevel(group: Bits, table: seq<Bits>)
  {
    function Levels(): nat {
      match this case OneLevel(_) => 32 case TwoLevel(_, _) => 256
    }

    ghost predicate Valid() {
      && |group| == 32
      && (TwoLevel? ==>
            && |table| == 32
            && (forall n :: 0 <= n < 32 ==> |table[n]| == 8)
            && (forall n :: 0 <= n < 32 ==> (group[n] <==> exists k :: 0 <= k < 8 && table[n][k])))
    }

    /** The bit that stands for priority p. */
    predicate Has(p: nat)
      requires Valid() && p < Levels()
    {
      match this
      case OneLevel(group) => group[p]
      case TwoLevel(_, table) => table[p / 8][p % 8]
    }

    /** group |= number_mask, and table[number] |= high_mask. */
    function Mark(p: nat): (r: Index)
      requires Valid() && p < Levels()
      ensures r.Valid() && r.Levels() == Levels()
      ensures forall q :: 0 <= q < Levels() ==> (r.Has(q) <==> q == p || Has(q))
    {
      match this
      case OneLevel(group) => OneLevel(group[p := true])
      case TwoLevel(group, table) =>
        var n, k := p / 8, p % 8;
        var r := TwoLevel(group[n := true], table[n := table[n][k := true]]);
        assert forall m :: 0 <= m < 32 && m != n ==> r.table[m] == table[m];
        assert r.table[n][k];
        r
    }

    /** The bit of an emptied list; the group bit goes when its whole byte is clear. */
    function Unmark(p: nat): (r: Index)
      requires Valid() && p < Levels()
      ensures r.Valid() && r.Levels() == Levels()
      ensures forall q :: 0 <= q < Levels() ==> (r.Has(q) <==> q != p && Has(q))
    {
      match this
      case OneLevel(group) => OneLevel(group[p := false])
      case TwoLevel(group, table) =>
        var n, k := p / 8, p % 8;
        var row := table[n][k := false];
        var r := TwoLevel(if Ffs(row) == 0 then group[n := false] else group, table[n := row]);
        assert forall m :: 0 <= m < 32 && m != n ==> r.table[m] == table[m];
        assert Ffs(row) != 0 ==> row[Ffs(row) - 1] && table[n][Ffs(row) - 1];
        r
    }

    /** _get_..._highest_ready_prio: Levels() stands for "no ready thread". */
    function Highest(): (p: nat)
      requires Valid()
      ensures p <= Levels()
      ensures p < Levels() ==> Has(p) && forall q :: 0 <= q < p ==> !Has(q)
      ensures p == Levels() ==> forall q :: 0 <= q < Levels() ==> !Has(q)
    {
      var number := Ffs(group);
      if number == 0 then
        assert forall m :: 0 <= m < 32 ==> !group[m];
        Levels()
      else
        match this
        case OneLevel(group) => number - 1
        case TwoLevel(group, table) =>
          var n := number - 1;
          assert group[n];
          var p := n * 8 + Ffs(table[n]) - 1;
          assert Lowest(table[n], Ffs(table[n]) - 1);
          HighestIsLowest(n, p);
          p
    }

    lemma HighestIsLowest(n: nat, p: nat)
      requires TwoLevel? && Valid() && n < 32 && Lowest(group, n)
      requires n * 8 <= p < n * 8 + 8 && Lowest(table[n], p - n * 8)
      ensures p < Levels() && Has(p) && forall q :: 0 <= q < p ==> !Has(q)
    {
      assert p / 8 == n && p % 8 == p - n * 8;
      forall q | 0 <= q < p ensures !Has(q) {
        if q / 8 < n {
          assert !group[q / 8];
        } else {
          assert q / 8 == n && q % 8 == q - n * 8;
        }
      }
    }
  }
}
