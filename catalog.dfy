/**
 * The tank catalog: the production unit chosen in the sidebar decides how
 * many tanks there are and which prefix their ids carry, and the overview
 * lists the ids "<prefix>-Tank <n>" for n = 1 .. count.
 */
module Catalog {
  import opened Decimal

  /** The two choices of the sidebar radio, in the order shown. */
  const UnitOne: string := "Üretim 1 (16 Tank)"
  const UnitTwo: string := "Üretim 2 (8 Tank)"
  const UnitChoices: seq<string> := [UnitOne, UnitTwo]

  /** The text whose presence in the unit's name selects the first unit's layout. */
  const UnitOneMarker: string := "Üretim 1"

  /** Python's `part in s` on strings: `part` occurs somewhere in `s`. */
  predicate Contains(s: string, part: string)
    decreases |s|
  {
    part <= s || (|s| > 0 && Contains(s[1..], part))
  }

  /** `part` occurs in `s` starting at position `i`. */
  predicate OccursAt(s: string, part: string, i: int) {
    0 <= i <= |s| - |part| && s[i..i + |part|] == part
  }

  /** Contains agrees with the positional definition of a substring. */
  lemma {:induction false} ContainsIff(s: string, part: string)
    ensures Contains(s, part) <==> exists i :: OccursAt(s, part, i)
    decreases |s|
  {
    if part <= s {
      assert s[0..|part|] == part;
      assert OccursAt(s, part, 0);
    } else if |s| > 0 {
      var rest := s[1..];
      ContainsIff(rest, part);
      if exists i :: OccursAt(rest, part, i) {
        var i :| OccursAt(rest, part, i);
        assert s[i + 1..i + 1 + |part|] == rest[i..i + |part|];
        assert OccursAt(s, part, i + 1);
      }
      forall i | OccursAt(s, part, i) && i > 0
        ensures OccursAt(rest, part, i - 1)
      {
        assert rest[i - 1..i - 1 + |part|] == s[i..i + |part|];
      }
    }
  }

  /** A text in which `part` occurs at no position does not contain it. */
  lemma NotContains(s: string, part: string)
    requires forall i :: !OccursAt(s, part, i)
    ensures !Contains(s, part)
  {
    ContainsIff(s, part);
  }

  /** Number of tanks of a unit (16 for a name containing "Üretim 1", otherwise 8). */
  function TankCount(unit: string): nat {
    if Contains(unit, UnitOneMarker) then 16 else 8
  }

  /** Id prefix of a unit's tanks ("U1" for a name containing "Üretim 1", otherwise "U2"). */
  function TankPrefix(unit: string): string {
    if Contains(unit, UnitOneMarker) then "U1" else "U2"
  }

  /** The id `f"{prefix}-Tank {n}"`. */
  function TankId(prefix: string, n: nat): string {
    prefix + "-Tank " + NatToDecimal(n)
  }

  /** The ids for tanks 1 .. n in ascending order, one appended per step. */
  function TankIds(prefix: string, n: nat): (ids: seq<string>)
    ensures |ids| == n
    ensures forall k :: 0 <= k < n ==> ids[k] == TankId(prefix, k + 1)
  {
    if n == 0 then [] else TankIds(prefix, n - 1) + [TankId(prefix, n)]
  }

  /** The catalog of a unit: every tank id its overview offers, in button order. */
  function Tanks(unit: string): seq<string> {
    TankIds(TankPrefix(unit), TankCount(unit))
  }

  /** The first unit has sixteen tanks "U1-Tank 1" .. "U1-Tank 16". */
  lemma UnitOneLayout()
    ensures TankCount(UnitOne) == 16 && TankPrefix(UnitOne) == "U1"
    ensures Tanks(UnitOne) == TankIds("U1", 16)
    ensures |Tanks(UnitOne)| == 16
    ensures Tanks(UnitOne)[0] == "U1-Tank 1" && Tanks(UnitOne)[15] == "U1-Tank 16"
  {
    assert UnitOneMarker <= UnitOne;
    assert NatToDecimal(16) == "16";
  }

  /** "Üretim 1" does not occur in the second unit's name. */
  lemma UnitTwoUnmarked()
    ensures !Contains(UnitTwo, UnitOneMarker)
  {
    var s, part := UnitTwo, UnitOneMarker;
    forall i | 0 <= i <= |s| - |part|
      ensures !OccursAt(s, part, i)
    {
      if i == 0 {
        assert s[i..i + |part|][7] == s[7] != part[7];
      } else {
        assert s[i..i + |part|][0] == s[i] != part[0];
      }
    }
    NotContains(s, part);
  }

  /** The second unit has eight tanks "U2-Tank 1" .. "U2-Tank 8". */
  lemma UnitTwoLayout()
    ensures TankCount(UnitTwo) == 8 && TankPrefix(UnitTwo) == "U2"
    ensures Tanks(UnitTwo) == TankIds("U2", 8)
    ensures |Tanks(UnitTwo)| == 8
    ensures Tanks(UnitTwo)[0] == "U2-Tank 1" && Tanks(UnitTwo)[7] == "U2-Tank 8"
  {
    UnitTwoUnmarked();
    UnitTwoIds();
  }

  lemma UnitTwoIds()
    ensures TankIds("U2", 8)[0] == "U2-Tank 1" && TankIds("U2", 8)[7] == "U2-Tank 8"
  {
    assert TankId("U2", 1) == "U2-Tank 1";
    assert TankId("U2", 8) == "U2-Tank 8";
  }

  /** Equal ids of one prefix name the same tank. */
  lemma TankIdInjective(prefix: string, i: nat, j: nat)
    requires TankId(prefix, i) == TankId(prefix, j)
    ensures i == j
  {
    var head := prefix + "-Tank ";
    assert TankId(prefix, i)[|head|..] == NatToDecimal(i);
    assert TankId(prefix, j)[|head|..] == NatToDecimal(j);
    DecimalInjective(i, j);
  }

  /** A unit's catalog holds no id twice. */
  lemma TanksDistinct(unit: string)
    ensures forall j, k :: 0 <= j < k < |Tanks(unit)| ==> Tanks(unit)[j] != Tanks(unit)[k]
  {
    var ids := Tanks(unit);
    forall j, k | 0 <= j < k < |ids|
      ensures ids[j] != ids[k]
    {
      if ids[j] == ids[k] {
        TankIdInjective(TankPrefix(unit), j + 1, k + 1);
      }
    }
  }

  /** An id is in a unit's catalog exactly when it is "<prefix>-Tank <n>" for some n in 1 .. count. */
  lemma InCatalogIff(unit: string, id: string)
    ensures id in Tanks(unit) <==> exists n :: 1 <= n <= TankCount(unit) && id == TankId(TankPrefix(unit), n)
  {
    var ids := Tanks(unit);
    if id in ids {
      var k :| 0 <= k < |ids| && ids[k] == id;
      assert id == TankId(TankPrefix(unit), k + 1);
    }
    if exists n :: 1 <= n <= TankCount(unit) && id == TankId(TankPrefix(unit), n) {
      var n :| 1 <= n <= TankCount(unit) && id == TankId(TankPrefix(unit), n);
      assert ids[n - 1] == id;
    }
  }

  /** Ids with different two-character prefixes differ. */
  lemma PrefixSeparates(p: string, q: string, i: nat, j: nat)
    requires |p| == |q| == 2 && p != q
    ensures TankId(p, i) != TankId(q, j)
  {
    assert TankId(p, i)[..2] == p;
    assert TankId(q, j)[..2] == q;
  }

  /** Catalogs built under two different two-character prefixes share no id. */
  lemma IdsDisjoint(p: string, q: string, m: nat, n: nat, id: string)
    requires |p| == |q| == 2 && p != q
    ensures !(id in TankIds(p, m) && id in TankIds(q, n))
  {
    var one, two := TankIds(p, m), TankIds(q, n);
    if id in one && id in two {
      var j :| 0 <= j < m && one[j] == id;
      var k :| 0 <= k < n && two[k] == id;
      PrefixSeparates(p, q, j + 1, k + 1);
    }
  }

  /** No tank id belongs to both units, so a selection never carries over a unit change. */
  lemma CatalogsDisjoint(id: string)
    ensures !(id in Tanks(UnitOne) && id in Tanks(UnitTwo))
  {
    UnitOneLayout();
    UnitTwoLayout();
    IdsDisjoint("U1", "U2", 16, 8, id);
  }
}
