/** The values a task card derives from its task: subtask progress, the completed/total counter, and the
    badge colour and icon for the priority. */
module Card {
  import opened Seqs
  import opened Tasks

  predicate IsDone(s: Subtask) { s.completed }

  /** `subtasks.filter(s => s.completed).length`. */
  function CountCompleted(subs: seq<Subtask>): (c: nat)
    ensures c <= |subs|
    ensures c == |subs| <==> AllCompleted(subs)
    ensures c == 0 <==> forall j :: 0 <= j < |subs| ==> !subs[j].completed
  {
    |Filter(subs, IsDone)|
  }

  /** Flipping one subtask moves the completed count by exactly one, up or down. */
  lemma {:induction false} CountAfterFlip(subs: seq<Subtask>, k: nat)
    requires k < |subs|
    ensures CountCompleted(subs[k := subs[k].(completed := !subs[k].completed)]) ==
      CountCompleted(subs) + (if subs[k].completed then -1 else 1)
  {
    var flipped := subs[k := subs[k].(completed := !subs[k].completed)];
    var front, back := subs[..k], subs[k + 1..];
    assert subs == front + ([subs[k]] + back);
    assert flipped == front + ([flipped[k]] + back);
    FilterConcat(front, [subs[k]] + back, IsDone);
    FilterConcat(front, [flipped[k]] + back, IsDone);
    FilterConcat([subs[k]], back, IsDone);
    FilterConcat([flipped[k]], back, IsDone);
    FilterSingleton(subs[k], IsDone);
    FilterSingleton(flipped[k], IsDone);
  }

  /** `Math.round(c / n * 100)`, taken as exact half-up rounding of 100·c/n. */
  function RoundedPercent(c: nat, n: nat): (p: int)
    requires c <= n && n > 0
    ensures 2 * n * p <= 200 * c + n < 2 * n * (p + 1)
    ensures 0 <= p <= 100
    ensures c == n ==> p == 100
    ensures c == 0 ==> p == 0
  {
    RoundingFacts(c, n);
    (200 * c + n) / (2 * n)
  }

  lemma RoundingFacts(c: nat, n: nat)
    requires c <= n && n > 0
    ensures var p := (200 * c + n) / (2 * n);
      && 2 * n * p <= 200 * c + n < 2 * n * (p + 1)
      && 0 <= p <= 100
      && (c == n ==> p == 100)
      && (c == 0 ==> p == 0)
  {
    var p := (200 * c + n) / (2 * n);
    assert 2 * n * p <= 200 * c + n < 2 * n * p + 2 * n;
    if p > 100 {
      MulMonotone(2 * n, 101, p);
    }
    if c == n {
      DivExact(200 * c + n, 2 * n, 100);
    }
    if c == 0 {
      DivExact(200 * c + n, 2 * n, 0);
    }
  }

  /** Multiplying by a natural number preserves order. */
  lemma {:induction false} MulMonotone(d: nat, a: nat, b: nat)
    requires a <= b
    ensures d * a <= d * b
  {
    if a < b {
      MulMonotone(d, a, b - 1);
      assert d * b == d * (b - 1) + d;
    }
  }

  /** A quotient is determined by the bracket it falls in. */
  lemma DivExact(x: nat, d: nat, q: nat)
    requires d > 0 && d * q <= x < d * (q + 1)
    ensures x / d == q
  {
    var r := x / d;
    assert d * r <= x < d * r + d;
    if r > q {
      MulMonotone(d, q + 1, r);
    } else if r < q {
      MulMonotone(d, r + 1, q);
    }
  }

  /** More completed subtasks never show less progress. */
  lemma RoundedPercentMonotone(c1: nat, c2: nat, n: nat)
    requires c1 <= c2 <= n && n > 0
    ensures RoundedPercent(c1, n) <= RoundedPercent(c2, n)
  {
    var p1, p2 := RoundedPercent(c1, n), RoundedPercent(c2, n);
    if p1 > p2 {
      MulMonotone(2 * n, p2 + 1, p1);
    }
  }

  /** `calculateProgress`: with no subtasks the task's own state decides; otherwise the rounded share of
      completed subtasks. */
  function CalculateProgress(t: Task): (p: int)
    ensures 0 <= p <= 100
    ensures |SubtasksOf(t)| == 0 ==> p == if t.completed then 100 else 0
    ensures |SubtasksOf(t)| > 0 && AllCompleted(SubtasksOf(t)) ==> p == 100
    ensures |SubtasksOf(t)| > 0 && CountCompleted(SubtasksOf(t)) == 0 ==> p == 0
    ensures |SubtasksOf(t)| > 0 ==> p == RoundedPercent(CountCompleted(SubtasksOf(t)), |SubtasksOf(t)|)
  {
    if t.subtasks.None? || |t.subtasks.value| == 0 then (if t.completed then 100 else 0)
    else RoundedPercent(CountCompleted(t.subtasks.value), |t.subtasks.value|)
  }

  /** The "c/n" counter shown next to the progress ring. */
  function SubtaskCounter(t: Task): (r: (nat, nat))
    ensures r.0 <= r.1 && r.1 == |SubtasksOf(t)|
    ensures r.0 == r.1 <==> AllCompleted(SubtasksOf(t))
  {
    (CountCompleted(SubtasksOf(t)), |SubtasksOf(t)|)
  }

  /** `getPriorityColor`. */
  function PriorityColor(priority: string): string {
    match priority
    case "high" => "danger"
    case "medium" => "warning"
    case "low" => "success"
    case _ => "default"
  }

  /** `getPriorityIcon`. */
  function PriorityIcon(priority: string): string {
    match priority
    case "high" => "AlertTriangle"
    case "medium" => "Clock"
    case "low" => "CheckCircle2"
    case _ => "Circle"
  }

  predicate IsKnownPriority(p: string) {
    p == "high" || p == "medium" || p == "low"
  }

  /** Each of the three priorities gets its own colour and icon; every other value gets the default pair. */
  lemma PriorityStyles(p: string, q: string)
    ensures PriorityColor(p) == "default" <==> !IsKnownPriority(p)
    ensures PriorityIcon(p) == "Circle" <==> !IsKnownPriority(p)
    ensures IsKnownPriority(p) && IsKnownPriority(q) && p != q ==>
      PriorityColor(p) != PriorityColor(q) && PriorityIcon(p) != PriorityIcon(q)
  {
  }

  /** After a subtask toggle, the card's counter moves by one, and a task auto-completed by the toggle
      shows full progress. */
  lemma ToggleSubtaskProgress(t: Task, k: nat, now: string)
    requires t.subtasks.Some? && k < |t.subtasks.value|
    ensures var r := ToggleSubtaskAt(t, k, now);
      SubtaskCounter(r).0 == SubtaskCounter(t).0 + (if t.subtasks.value[k].completed then -1 else 1)
    ensures var r := ToggleSubtaskAt(t, k, now);
      AllCompleted(SubtasksOf(r)) ==> r.completed && CalculateProgress(r) == 100
  {
    var r := ToggleSubtaskAt(t, k, now);
    var subs := t.subtasks.value;
    assert SubtasksOf(r) == subs[k := subs[k].(completed := !subs[k].completed)];
    CountAfterFlip(subs, k);
  }
}
