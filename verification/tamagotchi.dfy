/**
 * The pet's state engine: three bounded attributes, a status byte and an
 * 8x8 face buffer. The status byte packs four flags in its high nibble:
 *   bit 7 dead, bit 6 sick (health low), bit 5 hungry, bit 4 poisoned
 *   (the "unpoison" level is low); the low nibble is never set.
 */
module Tamagotchi {

  /** The range of Rust's `i8`. */
  type I8 = x: int | -128 <= x <= 127

  const DEAD: bv8 := 0x80
  const SICK: bv8 := 0x40
  const HUNGRY: bv8 := 0x20
  const POISONED: bv8 := 0x10

  /** The `&` masks the three "not low" branches apply. */
  const KEEP_NOT_HUNGRY: bv8 := 0xD0
  const KEEP_NOT_SICK: bv8 := 0xBF
  const KEEP_NOT_POISONED: bv8 := 0xEF

  predicate Dead(s: bv8) { s & DEAD != 0 }
  predicate Sick(s: bv8) { s & SICK != 0 }
  predicate Hungry(s: bv8) { s & HUNGRY != 0 }
  predicate Poisoned(s: bv8) { s & POISONED != 0 }

  /** How many of the three low flags are set. */
  function LowCount(s: bv8): int {
    (if Sick(s) then 1 else 0) + (if Hungry(s) then 1 else 0) + (if Poisoned(s) then 1 else 0)
  }

  /** The abstract value of the engine, without its face buffer. */
  datatype Vitals = Vitals(hunger: I8, health: I8, poisoning: I8, state: bv8)

  /** The three deltas of one `update` call. */
  datatype Delta = Delta(hunger: I8, health: I8, poison: I8)

  /** What `new()` builds: every attribute at its maximum, no flag set. */
  const Newborn: Vitals := Vitals(10, 10, 10, 0)

  function Dist(a: int, b: int): nat {
    if a <= b then b - a else a - b
  }

  /**
   * Clamping into [lo, hi]: used both for Rust's `saturating_add` on `i8`
   * (the exact sum clamped into the `i8` range) and for the explicit
   * clamp of each attribute into [0, 10].
   */
  function Clamp(v: int, lo: int, hi: int): (r: int)
    requires lo <= hi
    ensures lo <= r <= hi
    ensures forall x | lo <= x <= hi :: Dist(r, v) <= Dist(x, v)
  {
    if v < lo then lo else if v > hi then hi else v
  }

  /** `i8::saturating_add`. */
  function SatAdd(a: I8, b: I8): (r: I8)
    ensures -128 <= a + b <= 127 ==> r == a + b
    ensures a + b > 127 ==> r == 127
    ensures a + b < -128 ==> r == -128
  {
    Clamp(a + b, -128, 127)
  }

  /** An attribute's clamp into [0, 10], the `match` after each check. */
  function Bound(v: I8): (r: I8)
    ensures 0 <= r <= 10
    ensures 0 <= v <= 10 ==> r == v
    ensures forall x | 0 <= x <= 10 :: Dist(r, v) <= Dist(x, v)
  {
    Clamp(v, 0, 10)
  }

  /**
   * One attribute's check on its pre-clamp value `v`: at most 0 sets the
   * dead bit only, 1..4 sets the attribute's low bit, 5 and more applies
   * the mask `keep`, which clears that low bit.
   */
  function Classify(s: bv8, v: int, low: bv8, keep: bv8): (r: bv8)
    requires low == SICK || low == HUNGRY || low == POISONED
    requires keep & 0xF0 == 0xF0 ^ low
    ensures Dead(r) <==> Dead(s) || v <= 0
    ensures (r & low != 0) <==> if v <= 0 then s & low != 0 else v < 5
    ensures r & (0x70 ^ low) == s & (0x70 ^ low)
    ensures s & 0x0F == 0 ==> r & 0x0F == 0
  {
    if v <= 0 then s | DEAD
    else if v < 5 then s | low
    else s & keep
  }

  /** `update_death`: two or more low flags set the dead bit. */
  function DeathRule(s: bv8): (r: bv8)
    ensures Dead(r) <==> Dead(s) || LowCount(s) >= 2
    ensures r & 0x7F == s & 0x7F
  {
    var si := (s & SICK) >> 6;
    var hu := (s & HUNGRY) >> 5;
    var po := (s & POISONED) >> 4;
    if si + hu + po >= 2 then s | DEAD else s
  }

  /** The attributes after the deltas and before the checks and clamps. */
  function Raw(p: Vitals, d: Delta): Vitals {
    var poisoning := if d.health > 0 then SatAdd(p.poisoning, -3) else p.poisoning;
    Vitals(SatAdd(p.hunger, d.hunger), SatAdd(p.health, d.health), SatAdd(poisoning, d.poison), p.state)
  }

  /**
   * The three checks of `update`, each followed by its clamp, on the
   * attributes after the deltas.
   */
  function Checked(r: Vitals): Vitals {
    var s1 := Classify(r.state, r.hunger, HUNGRY, KEEP_NOT_HUNGRY);
    var s2 := Classify(s1, r.health, SICK, KEEP_NOT_SICK);
    var s3 := Classify(s2, r.poisoning, POISONED, KEEP_NOT_POISONED);
    Vitals(Bound(r.hunger), Bound(r.health), Bound(r.poisoning), s3)
  }

  /** The effect of `update(hu, he, po)` on attributes and status. */
  function Step(p: Vitals, d: Delta): Vitals {
    if Dead(p.state) then p
    else
      var c := Checked(Raw(p, d));
      c.(state := DeathRule(c.state))
  }

  /**
   * The engine's invariant: attributes in [0, 10], the low nibble clear,
   * and a live pet has every attribute in [1, 10], at most one low flag,
   * and each low flag set exactly when its attribute is below 5.
   */
  predicate Inv(p: Vitals) {
    && 0 <= p.hunger <= 10 && 0 <= p.health <= 10 && 0 <= p.poisoning <= 10
    && p.state & 0x0F == 0
    && (!Dead(p.state) ==>
          && 1 <= p.hunger && 1 <= p.health && 1 <= p.poisoning
          && LowCount(p.state) <= 1
          && (Hungry(p.state) <==> p.hunger < 5)
          && (Sick(p.state) <==> p.health < 5)
          && (Poisoned(p.state) <==> p.poisoning < 5))
  }

  lemma NewbornInv()
    ensures Inv(Newborn) && !Dead(Newborn.state) && LowCount(Newborn.state) == 0
  {
  }

  /** A dead pet ignores every update. */
  lemma StepOnDead(p: Vitals, d: Delta)
    requires Dead(p.state)
    ensures Step(p, d) == p
  {
  }

  /** Every update keeps the invariant, whatever its deltas. */
  lemma StepKeepsInv(p: Vitals, d: Delta)
    requires Inv(p)
    ensures Inv(Step(p, d))
  {
    if !Dead(p.state) {
      var r := Raw(p, d);
      var s1 := Classify(p.state, r.hunger, HUNGRY, KEEP_NOT_HUNGRY);
      var s2 := Classify(s1, r.health, SICK, KEEP_NOT_SICK);
      var s3 := Classify(s2, r.poisoning, POISONED, KEEP_NOT_POISONED);
      assert Hungry(s3) <==> Hungry(s1);
      assert Sick(s3) <==> Sick(s2);
    }
  }

  /** The dead bit, once set, stays set. */
  lemma StepKeepsDead(p: Vitals, d: Delta)
    requires Dead(p.state)
    ensures Dead(Step(p, d).state)
  {
  }

  /**
   * The deltas are applied with saturating `i8` addition; a positive
   * health delta first takes 3 off the poisoning level. From attributes
   * in 0..10 hunger and health can only saturate at the top, and the
   * healing never saturates.
   */
  lemma StepDeltas(p: Vitals, d: Delta)
    requires Inv(p)
    ensures Raw(p, d).hunger == if p.hunger + d.hunger > 127 then 127 else p.hunger + d.hunger
    ensures Raw(p, d).health == if p.health + d.health > 127 then 127 else p.health + d.health
    ensures d.health > 0 ==> Raw(p, d).poisoning == Clamp(p.poisoning - 3 + d.poison, -128, 127)
    ensures d.health <= 0 ==> Raw(p, d).poisoning == Clamp(p.poisoning + d.poison, -128, 127)
    ensures Raw(p, d).state == p.state
  {
  }

  /**
   * Each attribute is classified on its pre-clamp value: at most 0 sets
   * the dead bit and leaves that attribute's low bit as it was, 1..4 sets
   * it, 5 and more clears it.
   */
  lemma StepClassifies(p: Vitals, d: Delta)
    requires !Dead(p.state)
    ensures var r, s := Raw(p, d), Step(p, d).state;
      && (r.hunger <= 0 ==> Dead(s) && (Hungry(s) <==> Hungry(p.state)))
      && (1 <= r.hunger < 5 ==> Hungry(s))
      && (5 <= r.hunger ==> !Hungry(s))
      && (r.health <= 0 ==> Dead(s) && (Sick(s) <==> Sick(p.state)))
      && (1 <= r.health < 5 ==> Sick(s))
      && (5 <= r.health ==> !Sick(s))
      && (r.poisoning <= 0 ==> Dead(s) && (Poisoned(s) <==> Poisoned(p.state)))
      && (1 <= r.poisoning < 5 ==> Poisoned(s))
      && (5 <= r.poisoning ==> !Poisoned(s))
  {
    var r := Raw(p, d);
    var s1 := Classify(p.state, r.hunger, HUNGRY, KEEP_NOT_HUNGRY);
    var s2 := Classify(s1, r.health, SICK, KEEP_NOT_SICK);
    var s3 := Classify(s2, r.poisoning, POISONED, KEEP_NOT_POISONED);
    assert Hungry(s3) <==> Hungry(s1);
    assert Sick(s3) <==> Sick(s2);
  }

  /**
   * After an update that runs, each attribute is its pre-clamp value
   * clamped into [0, 10].
   */
  lemma StepClamps(p: Vitals, d: Delta)
    requires !Dead(p.state)
    ensures var r, q := Raw(p, d), Step(p, d);
      && q.hunger == Clamp(r.hunger, 0, 10)
      && q.health == Clamp(r.health, 0, 10)
      && q.poisoning == Clamp(r.poisoning, 0, 10)
  {
  }

  /**
   * A live pet dies in an update exactly when some pre-clamp value is at
   * most 0 or at least two low flags are set after the checks.
   */
  lemma StepDeath(p: Vitals, d: Delta)
    requires !Dead(p.state)
    ensures var r, s := Raw(p, d), Step(p, d).state;
      Dead(s) <==> r.hunger <= 0 || r.health <= 0 || r.poisoning <= 0 || LowCount(s) >= 2
  {
    var r := Raw(p, d);
    var s1 := Classify(p.state, r.hunger, HUNGRY, KEEP_NOT_HUNGRY);
    var s2 := Classify(s1, r.health, SICK, KEEP_NOT_SICK);
    var s3 := Classify(s2, r.poisoning, POISONED, KEEP_NOT_POISONED);
    assert LowCount(DeathRule(s3)) == LowCount(s3);
  }

  /** A neutral update leaves a newborn as it is. */
  lemma NeutralUpdate()
    ensures Step(Newborn, Delta(0, 0, 0)) == Newborn
  {
  }

  /** Curing a newborn costs 3 poisoning and nothing else. */
  lemma CureNewborn()
    ensures Step(Newborn, Delta(0, 7, 0)) == Vitals(10, 10, 7, 0)
  {
  }

  // ---------------------------------------------------------------------
  // The face buffer. `draw` paints three regions in order (eyes, mouth,
  // tongue); each function below gives a cell after one region is painted.

  function EyesCell(s: bv8, i: int, j: int, prev: nat): nat {
    if (i == 2 || i == 3) && (j == 1 || j == 2 || j == 5 || j == 6) then
      (if Sick(s) && i == 2 then 0 else 1)
    else prev
  }

  function MouthCell(s: bv8, i: int, j: int, prev: nat): nat {
    if Hungry(s) then
      if i == 5 && 1 <= j <= 6 then 1
      else if i == 6 && 2 <= j <= 5 then 0
      else prev
    else
      if i == 5 && (j == 1 || j == 6) then 1
      else if i == 6 && 2 <= j <= 5 then 1
      else prev
  }

  function TongueCell(s: bv8, i: int, j: int, prev: nat): nat {
    if (i == 6 || i == 7) && (j == 3 || j == 4) then
      if Poisoned(s) then 1
      else if i == 7 then 0
      else prev
    else prev
  }

  /** Cell (i, j) after `draw` with status `s`, given its value before. */
  function DrawnCell(s: bv8, i: int, j: int, prev: nat): nat {
    TongueCell(s, i, j, MouthCell(s, i, j, EyesCell(s, i, j, prev)))
  }

  /** The cells `draw` may write: rows 2, 3, 5, 6 and 7 only. */
  predicate Painted(i: int, j: int) {
    || ((i == 2 || i == 3) && (j == 1 || j == 2 || j == 5 || j == 6))
    || (i == 5 && 1 <= j <= 6)
    || (i == 6 && 2 <= j <= 5)
    || (i == 7 && (j == 3 || j == 4))
  }

  /** `draw` leaves every cell outside its regions as it was. */
  lemma DrawOnlyPaints(s: bv8, i: int, j: int, prev: nat)
    requires !Painted(i, j)
    ensures DrawnCell(s, i, j, prev) == prev
  {
  }

  /** `draw` reads only the sick, hungry and poisoned bits. */
  lemma DrawReadsLowFlags(s: bv8, t: bv8, i: int, j: int, prev: nat)
    requires s & 0x70 == t & 0x70
    ensures DrawnCell(s, i, j, prev) == DrawnCell(t, i, j, prev)
  {
    SameLowFlags(s, t);
  }

  /** Bits 6, 5 and 4 are exactly the sick, hungry and poisoned flags. */
  lemma SameLowFlags(s: bv8, t: bv8)
    requires s & 0x70 == t & 0x70
    ensures Sick(s) == Sick(t) && Hungry(s) == Hungry(t) && Poisoned(s) == Poisoned(t)
  {
    assert s & SICK == (s & 0x70) & SICK;
    assert s & HUNGRY == (s & 0x70) & HUNGRY;
    assert s & POISONED == (s & 0x70) & POISONED;
    assert t & SICK == (t & 0x70) & SICK;
    assert t & HUNGRY == (t & 0x70) & HUNGRY;
    assert t & POISONED == (t & 0x70) & POISONED;
  }

  /** Drawing twice is drawing once. */
  lemma DrawIdempotent(s: bv8, i: int, j: int, prev: nat)
    ensures DrawnCell(s, i, j, DrawnCell(s, i, j, prev)) == DrawnCell(s, i, j, prev)
  {
  }

  /** The tongue is painted after the mouth and wins the two shared cells. */
  lemma TongueOverMouth(s: bv8, prev: nat)
    requires Poisoned(s)
    ensures DrawnCell(s, 6, 3, prev) == 1 && DrawnCell(s, 6, 4, prev) == 1
    ensures Hungry(s) ==> MouthCell(s, 6, 3, prev) == 0 && MouthCell(s, 6, 4, prev) == 0
  {
  }

  /**
   * The closed mouth paints only the corners of row 5: the cells in between
   * keep whatever an earlier hungry face left there.
   */
  lemma ClosedMouthKeepsRowFive(s: bv8, j: int, prev: nat)
    requires !Hungry(s) && 2 <= j <= 5
    ensures DrawnCell(s, 5, j, prev) == prev
  {
  }

  /** Drawing keeps a 0/1 buffer a 0/1 buffer. */
  lemma DrawBinary(s: bv8, i: int, j: int, prev: nat)
    requires prev <= 1
    ensures DrawnCell(s, i, j, prev) <= 1
  {
  }

  /** On a blank buffer with no low flag, `draw` paints the healthy face. */
  lemma HealthyFace(i: int, j: int)
    requires 0 <= i < 8 && 0 <= j < 8
    ensures DrawnCell(0, i, j, 0) == 1 <==>
      || ((i == 2 || i == 3) && (j == 1 || j == 2 || j == 5 || j == 6))
      || (i == 5 && (j == 1 || j == 6))
      || (i == 6 && 2 <= j <= 5)
  {
  }

  // ---------------------------------------------------------------------

  class Tamagotchi {
    const display: array2<nat>
    var hunger: I8
    var health: I8
    var poisoning: I8
    var state: bv8

    /** The buffer is 8x8. */
    predicate Shaped()
      reads this
    {
      display.Length0 == 8 && display.Length1 == 8
    }

    function Current(): Vitals
      reads this
    {
      Vitals(hunger, health, poisoning, state)
    }

    ghost predicate Valid()
      reads this
    {
      Shaped() && Inv(Current())
    }

    /** The buffer already shows the current flags: drawing would change nothing. */
    ghost predicate FaceShown()
      reads this, display
      requires Shaped()
    {
      forall i, j | 0 <= i < 8 && 0 <= j < 8 :: display[i, j] == DrawnCell(state, i, j, display[i, j])
    }

    /** `new()`: full attributes, no flag, and a blank buffer. */
    constructor ()
      ensures Valid() && fresh(display)
      ensures Current() == Newborn
      ensures forall i, j | 0 <= i < 8 && 0 <= j < 8 :: display[i, j] == 0
    {
      display := new nat[8, 8]((i, j) => 0);
      hunger, health, poisoning, state := 10, 10, 10, 0;
    }

    /** `is_dead`: a dead pet is a fixed point of every update. */
    function IsDead(): (r: bool)
      reads this
      ensures r <==> Dead(state)
      ensures r ==> forall d :: Step(Current(), d) == Current()
      ensures !r && Inv(Current()) ==> 1 <= hunger && 1 <= health && 1 <= poisoning
    {
      state & DEAD != 0
    }

    /** `add_poison`: the side effect of healing. */
    method AddPoison()
      modifies this`poisoning
      ensures poisoning == SatAdd(old(poisoning), -3)
    {
      poisoning := SatAdd(poisoning, -3);
    }

    /** `update_death`. */
    method UpdateDeath()
      modifies this`state
      ensures state == DeathRule(old(state))
    {
      var si := (state & SICK) >> 6;
      var hu := (state & HUNGRY) >> 5;
      var po := (state & POISONED) >> 4;
      if si + hu + po >= 2 {
        state := state | DEAD;
      }
    }

    /** `draw`: paints eyes, then mouth, then tongue. */
    method Draw()
      requires Shaped()
      modifies display
      ensures forall i, j | 0 <= i < 8 && 0 <= j < 8 ::
        display[i, j] == DrawnCell(state, i, j, old(display[i, j]))
    {
      DrawEyes();
      label Eyes:
      DrawMouth();
      label Mouth:
      DrawTongue();
      assert forall i, j | 0 <= i < 8 && 0 <= j < 8 ::
        display[i, j] == TongueCell(state, i, j, old@Mouth(display[i, j]));
      assert forall i, j | 0 <= i < 8 && 0 <= j < 8 ::
        old@Mouth(display[i, j]) == MouthCell(state, i, j, old@Eyes(display[i, j]));
    }

    /** The eyes: open when healthy, half-closed when sick. */
    method DrawEyes()
      requires Shaped()
      modifies display
      ensures forall i, j | 0 <= i < 8 && 0 <= j < 8 ::
        display[i, j] == EyesCell(state, i, j, old(display[i, j]))
    {
      if state & SICK != 0 {
        display[2, 1] := 0;
        display[2, 2] := 0;
        display[3, 1] := 1;
        display[3, 2] := 1;

        display[2, 5] := 0;
        display[2, 6] := 0;
        display[3, 5] := 1;
        display[3, 6] := 1;
      } else {
        display[2, 1] := 1;
        display[2, 2] := 1;
        display[3, 1] := 1;
        display[3, 2] := 1;

        display[2, 5] := 1;
        display[2, 6] := 1;
        display[3, 5] := 1;
        display[3, 6] := 1;
      }
    }

    /** The mouth: open when hungry, closed otherwise. */
    method DrawMouth()
      requires Shaped()
      modifies display
      ensures forall i, j | 0 <= i < 8 && 0 <= j < 8 ::
        display[i, j] == MouthCell(state, i, j, old(display[i, j]))
    {
      if state & HUNGRY != 0 {
        for k := 1 to 7
          invariant forall i, j | 0 <= i < 8 && 0 <= j < 8 ::
            display[i, j] == if i == 5 && 1 <= j < k then 1 else old(display[i, j])
        {
          display[5, k] := 1;
        }
        label Top:
        for k := 2 to 6
          invariant forall i, j | 0 <= i < 8 && 0 <= j < 8 ::
            display[i, j] == if i == 6 && 2 <= j < k then 0 else old@Top(display[i, j])
        {
          display[6, k] := 0;
        }
      } else {
        display[5, 1] := 1;
        display[5, 6] := 1;
        label Corners:
        for k := 2 to 6
          invariant forall i, j | 0 <= i < 8 && 0 <= j < 8 ::
            display[i, j] == if i == 6 && 2 <= j < k then 1 else old@Corners(display[i, j])
        {
          display[6, k] := 1;
        }
      }
    }

    /** The tongue: shown when poisoned, its lower half hidden otherwise. */
    method DrawTongue()
      requires Shaped()
      modifies display
      ensures forall i, j | 0 <= i < 8 && 0 <= j < 8 ::
        display[i, j] == TongueCell(state, i, j, old(display[i, j]))
    {
      if state & POISONED != 0 {
        display[6, 3] := 1;
        display[6, 4] := 1;

        display[7, 3] := 1;
        display[7, 4] := 1;
      } else {
        display[7, 3] := 0;
        display[7, 4] := 0;
      }
    }

    /** `update(hu, he, po)`: a no-op on a dead pet, else the whole step and a redraw. */
    method Update(hu: I8, he: I8, po: I8)
      requires Valid()
      modifies this, display
      ensures Valid()
      ensures Current() == Step(old(Current()), Delta(hu, he, po))
      ensures old(IsDead()) ==> unchanged(display)
      ensures !old(IsDead()) ==> forall i, j | 0 <= i < 8 && 0 <= j < 8 ::
        display[i, j] == DrawnCell(state, i, j, old(display[i, j]))
      ensures !old(IsDead()) || old(FaceShown()) ==> FaceShown()
    {
      if IsDead() {
        return;
      }
      ghost var p := Current();
      ApplyDeltas(hu, he, po);
      CheckAttributes();
      UpdateDeath();
      assert Current() == Step(p, Delta(hu, he, po));
      StepKeepsInv(p, Delta(hu, he, po));
      label Painting:
      Draw();
      forall i, j | 0 <= i < 8 && 0 <= j < 8
        ensures display[i, j] == DrawnCell(state, i, j, display[i, j])
      {
        DrawIdempotent(state, i, j, old(display[i, j]));
      }
    }

    /** The deltas of `update`, with the healing side effect before `po`. */
    method ApplyDeltas(hu: I8, he: I8, po: I8)
      modifies this`hunger, this`health, this`poisoning
      ensures Current() == Raw(old(Current()), Delta(hu, he, po))
    {
      hunger := SatAdd(hunger, hu);
      health := SatAdd(health, he);
      if he > 0 {
        AddPoison();
      }
      poisoning := SatAdd(poisoning, po);
    }

    /** The three checks of `update`, each on the pre-clamp value, then its clamp. */
    method CheckAttributes()
      modifies this`hunger, this`health, this`poisoning, this`state
      ensures Current() == Checked(old(Current()))
    {
      state := Classify(state, hunger, HUNGRY, KEEP_NOT_HUNGRY);
      hunger := Bound(hunger);

      state := Classify(state, health, SICK, KEEP_NOT_SICK);
      health := Bound(health);

      state := Classify(state, poisoning, POISONED, KEEP_NOT_POISONED);
      poisoning := Bound(poisoning);
    }
  }
}
