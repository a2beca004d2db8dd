/**
 * One tick of the main loop: a decay update, then one update per character
 * of the line received in that tick (if any), then the death check that
 * ends the loop.
 */
module TickLoop {
  import opened Tamagotchi

  /** The line received in a tick, or none when no line was waiting. */
  datatype Option<T> = None | Some(value: T)

  /** The passive decay applied at the start of every tick. */
  const Decay: Delta := Delta(-1, -1, 2)
  const Feed: Delta := Delta(5, 0, 0)
  const Cure: Delta := Delta(0, 7, 0)
  const Idle: Delta := Delta(0, 0, 0)

  /** The update one command character asks for. */
  function Command(c: char): (d: Delta)
    ensures d.poison == 0
    ensures d == Feed || d == Cure || d == Idle
    ensures d == Feed <==> c == 'f'
    ensures d == Cure <==> c == 'c'
  {
    match c
    case 'f' => Feed
    case 'c' => Cure
    case _ => Idle
  }

  /** `s.replace(c, "")` for a one-character pattern. */
  function RemoveChar(s: string, c: char): (r: string)
    ensures c !in r
    ensures multiset(r) == multiset(s)[c := 0]
    ensures |r| <= |s|
  {
    if s == [] then []
    else
      assert s == [s[0]] + s[1..];
      (if s[0] == c then [] else [s[0]]) + RemoveChar(s[1..], c)
  }

  /** Removing a character works piece by piece, so it keeps the order of the rest. */
  lemma {:induction false} RemoveCharAppend(a: string, b: string, c: char)
    ensures RemoveChar(a + b, c) == RemoveChar(a, c) + RemoveChar(b, c)
  {
    if a != [] {
      var head := if a[0] == c then [] else [a[0]];
      var ab := a + b;
      assert ab[0] == a[0] && ab[1..] == a[1..] + b;
      assert RemoveChar(ab, c) == head + RemoveChar(ab[1..], c);
      assert RemoveChar(a, c) == head + RemoveChar(a[1..], c);
      RemoveCharAppend(a[1..], b, c);
    } else {
      assert a + b == b;
    }
  }

  /** A string without the character is left as it is. */
  lemma {:induction false} RemoveCharAbsent(s: string, c: char)
    requires c !in s
    ensures RemoveChar(s, c) == s
  {
    if s != [] {
      RemoveCharAbsent(s[1..], c);
    }
  }

  /** The received line with every LF and then every CR removed. */
  function Sanitize(line: string): (r: string)
    ensures '\n' !in r && '\r' !in r
    ensures multiset(r) == multiset(line)['\n' := 0]['\r' := 0]
  {
    var lf := RemoveChar(line, '\n');
    var r := RemoveChar(lf, '\r');
    assert multiset(r)['\n'] == multiset(lf)['\n'] == 0;
    r
  }

  /** A line without CR or LF reaches the command loop unchanged. */
  lemma SanitizeClean(line: string)
    requires '\n' !in line && '\r' !in line
    ensures Sanitize(line) == line
  {
    RemoveCharAbsent(line, '\n');
    RemoveCharAbsent(line, '\r');
  }

  /** The updates a sanitised line asks for, one per character. */
  function Commands(s: string): (ds: seq<Delta>)
    ensures |ds| == |s| && forall k | 0 <= k < |s| :: ds[k] == Command(s[k])
  {
    seq(|s|, k requires 0 <= k < |s| => Command(s[k]))
  }

  /**
   * The updates one tick issues, in order: the decay first, then one per
   * character of the sanitised line.
   */
  function TickUpdates(line: Option<string>): (ds: seq<Delta>)
    ensures |ds| >= 1 && ds[0] == Decay
    ensures line.None? ==> ds == [Decay]
    ensures line.Some? ==> |ds| == 1 + |Sanitize(line.value)|
    ensures line.Some? ==> forall k | 0 <= k < |Sanitize(line.value)| ::
      ds[k + 1] == Command(Sanitize(line.value)[k])
    ensures forall k | 1 <= k < |ds| :: ds[k].poison == 0
  {
    match line
    case None => [Decay]
    case Some(key) =>
      [Decay] + Commands(Sanitize(key))
  }

  /** The state after a sequence of updates, applied first to last. */
  function Run(p: Vitals, ds: seq<Delta>): Vitals
    decreases |ds|
  {
    if ds == [] then p
    else Step(Run(p, ds[..|ds| - 1]), ds[|ds| - 1])
  }

  /** Any sequence of updates keeps the engine's invariant. */
  lemma {:induction false} RunKeepsInv(p: Vitals, ds: seq<Delta>)
    requires Inv(p)
    ensures Inv(Run(p, ds))
    decreases |ds|
  {
    if ds != [] {
      RunKeepsInv(p, ds[..|ds| - 1]);
      StepKeepsInv(Run(p, ds[..|ds| - 1]), ds[|ds| - 1]);
    }
  }

  /** A dead pet is unchanged by any sequence of updates. */
  lemma {:induction false} RunOnDead(p: Vitals, ds: seq<Delta>)
    requires Dead(p.state)
    ensures Run(p, ds) == p
    decreases |ds|
  {
    if ds != [] {
      RunOnDead(p, ds[..|ds| - 1]);
    }
  }

  /** Once some prefix of the updates has killed the pet, the whole sequence leaves it dead. */
  lemma {:induction false} DeathIsFinal(p: Vitals, ds: seq<Delta>, k: nat)
    requires k <= |ds| && Dead(Run(p, ds[..k]).state)
    ensures Dead(Run(p, ds).state)
    decreases |ds| - k
  {
    if k < |ds| {
      assert ds[..k + 1][..k] == ds[..k];
      DeathIsFinal(p, ds, k + 1);
    } else {
      assert ds[..k] == ds;
    }
  }

  /** Once the loop has seen a dead pet, no later tick could change it. */
  lemma TickOnDead(p: Vitals, line: Option<string>)
    requires Dead(p.state)
    ensures Run(p, TickUpdates(line)) == p
  {
    RunOnDead(p, TickUpdates(line));
  }

  /**
   * The updates issued by a run of ticks, one received line (or none) per
   * tick, in order.
   */
  function TicksUpdates(lines: seq<Option<string>>): (ds: seq<Delta>)
    ensures |ds| >= |lines|
    ensures lines != [] ==> ds[0] == Decay
    decreases |lines|
  {
    if lines == [] then []
    else TicksUpdates(lines[..|lines| - 1]) + TickUpdates(lines[|lines| - 1])
  }

  /** Running the updates of several ticks is running the ticks one after another. */
  lemma RunTicks(p: Vitals, lines: seq<Option<string>>, line: Option<string>)
    ensures Run(p, TicksUpdates(lines + [line])) == Run(Run(p, TicksUpdates(lines)), TickUpdates(line))
  {
    assert (lines + [line])[..|lines|] == lines;
    RunAppend(p, TicksUpdates(lines), TickUpdates(line));
  }

  /** `n` decay updates in a row. */
  function IdleTicks(n: nat): (ds: seq<Delta>)
    ensures |ds| == n && forall k | 0 <= k < n :: ds[k] == Decay
  {
    seq(n, _ => Decay)
  }

  /** `n` ticks in which no line was waiting issue exactly `n` decay updates. */
  lemma {:induction false} IdleTicksAreDecay(n: nat)
    ensures TicksUpdates(seq(n, _ => None)) == IdleTicks(n)
  {
    if n > 0 {
      var lines: seq<Option<string>> := seq(n, _ => None);
      assert lines[..n - 1] == seq(n - 1, _ => None);
      IdleTicksAreDecay(n - 1);
      assert IdleTicks(n) == IdleTicks(n - 1) + [Decay];
    }
  }

  /**
   * Decay alone: hunger and health fall by one per update while poisoning
   * stays at 10, and the sixth update kills the pet through the
   * two-low-flags rule (hunger and health both at 4).
   */
  lemma {:induction false} IdleDecay(n: nat)
    ensures n <= 5 ==> Run(Newborn, IdleTicks(n)) == Vitals(10 - n, 10 - n, 10, 0)
    ensures n >= 6 ==> Run(Newborn, IdleTicks(n)) == Vitals(4, 4, 10, DEAD | SICK | HUNGRY)
  {
    if n > 0 {
      IdleDecay(n - 1);
      assert IdleTicks(n)[..n - 1] == IdleTicks(n - 1);
    }
  }

  /**
   * Ticks without input: the sixth tick kills a new pet, long before
   * hunger or health reaches 0.
   */
  lemma IdleLife(n: nat)
    ensures n <= 5 ==> Run(Newborn, TicksUpdates(seq(n, _ => None))) == Vitals(10 - n, 10 - n, 10, 0)
    ensures n >= 6 ==> Run(Newborn, TicksUpdates(seq(n, _ => None))) == Vitals(4, 4, 10, DEAD | SICK | HUNGRY)
  {
    IdleTicksAreDecay(n);
    IdleDecay(n);
  }

  /** One tick of a pet that was just created and received no line. */
  lemma FirstIdleTick()
    ensures Run(Newborn, TickUpdates(None)) == Vitals(9, 9, 10, 0)
  {
    assert TickUpdates(None) == IdleTicks(1);
    IdleDecay(1);
  }

  /** `new()` followed by the first `draw()`: the pet the loop starts with. */
  method Hatch() returns (t: Tamagotchi)
    ensures fresh(t) && fresh(t.display)
    ensures t.Valid() && t.Current() == Newborn && t.FaceShown()
    ensures forall i, j | 0 <= i < 8 && 0 <= j < 8 :: t.display[i, j] == DrawnCell(0, i, j, 0)
  {
    t := new Tamagotchi();
    t.Draw();
    forall i, j | 0 <= i < 8 && 0 <= j < 8
      ensures t.display[i, j] == DrawnCell(t.state, i, j, t.display[i, j])
    {
      DrawIdempotent(t.state, i, j, 0);
    }
  }

  /**
   * What cell (i, j) of the buffer holds after a sequence of updates that
   * found it holding `prev`: every update that finds the pet alive redraws
   * the face with the flags it leaves; one that finds it dead draws nothing.
   */
  ghost function Painting(p: Vitals, ds: seq<Delta>, i: int, j: int, prev: nat): nat
    decreases |ds|
  {
    if ds == [] then prev
    else
      var q := Run(p, ds[..|ds| - 1]);
      var cell := Painting(p, ds[..|ds| - 1], i, j, prev);
      if Dead(q.state) then cell else DrawnCell(Step(q, ds[|ds| - 1]).state, i, j, cell)
  }

  /** Cells outside the face keep whatever they held, whatever the updates. */
  lemma {:induction false} PaintingKeepsBackground(p: Vitals, ds: seq<Delta>, i: int, j: int, prev: nat)
    requires !Painted(i, j)
    ensures Painting(p, ds, i, j, prev) == prev
    decreases |ds|
  {
    if ds != [] {
      PaintingKeepsBackground(p, ds[..|ds| - 1], i, j, prev);
      DrawOnlyPaints(Step(Run(p, ds[..|ds| - 1]), ds[|ds| - 1]).state, i, j, prev);
    }
  }

  /** A dead pet's buffer is never drawn on again. */
  lemma {:induction false} PaintingOnDead(p: Vitals, ds: seq<Delta>, i: int, j: int, prev: nat)
    requires Dead(p.state)
    ensures Painting(p, ds, i, j, prev) == prev
    decreases |ds|
  {
    if ds != [] {
      PaintingOnDead(p, ds[..|ds| - 1], i, j, prev);
      RunOnDead(p, ds[..|ds| - 1]);
    }
  }

  /**
   * After at least one update that found the pet alive, the cell shows the
   * face of the final flags: drawing once more would not change it.
   */
  lemma {:induction false} PaintingShowsFace(p: Vitals, ds: seq<Delta>, i: int, j: int, prev: nat)
    requires !Dead(p.state) && ds != []
    ensures DrawnCell(Run(p, ds).state, i, j, Painting(p, ds, i, j, prev)) == Painting(p, ds, i, j, prev)
    decreases |ds|
  {
    var q := Run(p, ds[..|ds| - 1]);
    var cell := Painting(p, ds[..|ds| - 1], i, j, prev);
    if Dead(q.state) {
      assert ds[..|ds| - 1] != [];
      PaintingShowsFace(p, ds[..|ds| - 1], i, j, prev);
    } else {
      DrawIdempotent(Step(q, ds[|ds| - 1]).state, i, j, cell);
    }
  }

  /** Painting through two sequences of updates is painting through their concatenation. */
  lemma {:induction false} PaintingAppend(p: Vitals, a: seq<Delta>, b: seq<Delta>, i: int, j: int, prev: nat)
    ensures Painting(p, a + b, i, j, prev) == Painting(Run(p, a), b, i, j, Painting(p, a, i, j, prev))
    decreases |b|
  {
    if b == [] {
      assert a + b == a;
    } else {
      assert (a + b)[..|a + b| - 1] == a + b[..|b| - 1];
      PaintingAppend(p, a, b[..|b| - 1], i, j, prev);
      RunAppend(p, a, b[..|b| - 1]);
    }
  }

  /**
   * The command loop of a tick: one update per character of the sanitised
   * line, in order, with the character's feed and cure deltas and poison 0.
   */
  method RunCommands(t: Tamagotchi, sanitized: string)
    requires t.Valid()
    modifies t, t.display
    ensures t.Valid()
    ensures t.Current() == Run(old(t.Current()), Commands(sanitized))
    ensures old(t.IsDead()) ==> t.Current() == old(t.Current()) && unchanged(t.display)
    ensures forall i, j | 0 <= i < 8 && 0 <= j < 8 ::
              t.display[i, j] == Painting(old(t.Current()), Commands(sanitized), i, j, old(t.display[i, j]))
    ensures old(t.FaceShown()) ==> t.FaceShown()
  {
    ghost var p := t.Current();
    ghost var ds := Commands(sanitized);
    for k := 0 to |sanitized|
      invariant t.Valid()
      invariant t.Current() == Run(p, ds[..k])
      invariant old(t.IsDead()) ==> t.Current() == p && unchanged(t.display)
      invariant forall i, j | 0 <= i < 8 && 0 <= j < 8 :: t.display[i, j] == Painting(p, ds[..k], i, j, old(t.display[i, j]))
      invariant old(t.FaceShown()) ==> t.FaceShown()
    {
      var d := Command(sanitized[k]);
      assert ds[k] == Delta(d.hunger, d.health, 0);
      t.Update(d.hunger, d.health, 0);
      assert ds[..k + 1][..k] == ds[..k];
    }
    assert ds[..|sanitized|] == ds;
  }

  /** Applying the decay and then a sequence of updates is applying their concatenation. */
  lemma {:induction false} RunAppend(p: Vitals, a: seq<Delta>, b: seq<Delta>)
    ensures Run(p, a + b) == Run(Run(p, a), b)
    decreases |b|
  {
    if b == [] {
      assert a + b == a;
    } else {
      assert (a + b)[..|a + b| - 1] == a + b[..|b| - 1];
      RunAppend(p, a, b[..|b| - 1]);
    }
  }

  /**
   * One pass of the main loop. Returns whether the loop stops, which it
   * does exactly when the pet is dead after the tick.
   */
  method Tick(t: Tamagotchi, line: Option<string>) returns (stop: bool)
    requires t.Valid()
    modifies t, t.display
    ensures t.Valid()
    ensures t.Current() == Run(old(t.Current()), TickUpdates(line))
    ensures old(t.IsDead()) ==> t.Current() == old(t.Current()) && unchanged(t.display)
    ensures forall i, j | 0 <= i < 8 && 0 <= j < 8 ::
              t.display[i, j] == Painting(old(t.Current()), TickUpdates(line), i, j, old(t.display[i, j]))
    ensures forall i, j | 0 <= i < 8 && 0 <= j < 8 && !Painted(i, j) :: t.display[i, j] == old(t.display[i, j])
    ensures !old(t.IsDead()) || old(t.FaceShown()) ==> t.FaceShown()
    ensures stop == t.IsDead()
  {
    ghost var p := t.Current();
    t.Update(-1, -1, 2);
    assert [Decay][..0] == [];
    assert t.Current() == Run(p, [Decay]);
    assert forall i, j | 0 <= i < 8 && 0 <= j < 8 :: t.display[i, j] == Painting(p, [Decay], i, j, old(t.display[i, j]));
    match line {
      case None =>
      case Some(key) =>
        var sanitized := Sanitize(key);
        ghost var cmds := Commands(sanitized);
        label Commands:
        RunCommands(t, sanitized);
        RunAppend(p, [Decay], cmds);
        forall i, j | 0 <= i < 8 && 0 <= j < 8
          ensures t.display[i, j] == Painting(p, [Decay] + cmds, i, j, old(t.display[i, j]))
        {
          PaintingAppend(p, [Decay], cmds, i, j, old(t.display[i, j]));
        }
    }
    forall i, j | 0 <= i < 8 && 0 <= j < 8 && !Painted(i, j)
      ensures t.display[i, j] == old(t.display[i, j])
    {
      PaintingKeepsBackground(p, TickUpdates(line), i, j, old(t.display[i, j]));
    }
    stop := t.IsDead();
  }
}
