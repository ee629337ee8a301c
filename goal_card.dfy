/**
 * The goal card: how many of a goal's milestones are done, the rounded
 * completion percentage, and the icon and colours picked for the goal's
 * category, with their fall-backs for a category the tables do not know.
 */
module GoalCard {
  import opened Wrappers
  import opened Types
  import Seqs

  /** `Math.round(completed / total * 100)` when `total > 0`, else 0: half-up rounding, in integers. */
  function Percent(completed: nat, total: nat): (pct: nat)
    ensures total == 0 ==> pct == 0
    ensures total > 0 ==> 2 * total * pct <= 200 * completed + total < 2 * total * (pct + 1)
  {
    if total == 0 then 0 else (200 * completed + total) / (2 * total)
  }

  /** `k * a <= k * b` for `a <= b` and a non-negative factor. */
  lemma {:induction false} MulMono(k: nat, a: int, b: int)
    requires a <= b
    ensures k * a <= k * b
  {
    if k > 0 {
      MulMono(k - 1, a, b);
      assert k * a == (k - 1) * a + a;
      assert k * b == (k - 1) * b + b;
    }
  }

  /** A quotient is at most `q` when the dividend is below `d * (q + 1)`. */
  lemma DivAtMost(n: nat, d: nat, q: nat)
    requires d > 0 && n < d * (q + 1)
    ensures n / d <= q
  {
    var r := n / d;
    assert d * r <= n;
    if r > q {
      MulMono(d, q + 1, r);
    }
  }

  /** A quotient is at least `q` when the dividend is at least `d * q`. */
  lemma DivAtLeast(n: nat, d: nat, q: nat)
    requires d > 0 && d * q <= n
    ensures q <= n / d
  {
    var r := n / d;
    assert n < d * r + d == d * (r + 1);
    if r < q {
      MulMono(d, r + 1, q);
    }
  }

  /** The percentage of a part of a whole lies between 0 and 100; none done is 0, all done is 100. */
  lemma PercentBounds(completed: nat, total: nat)
    requires completed <= total
    ensures Percent(completed, total) <= 100
    ensures completed == 0 ==> Percent(completed, total) == 0
    ensures 0 < total && completed == total ==> Percent(completed, total) == 100
  {
    if total > 0 {
      var n, d := 200 * completed + total, 2 * total;
      assert Percent(completed, total) == n / d;
      DivAtMost(n, d, 100);
      if completed == 0 {
        DivAtMost(n, d, 0);
      }
      if completed == total {
        DivAtLeast(n, d, 100);
      }
    }
  }

  /** Three of four milestones done shows 75%. */
  lemma ThreeOfFour()
    ensures Percent(3, 4) == 75
  {
  }

  /** Percent grows with the number completed. */
  lemma PercentMonotonic(a: nat, b: nat, total: nat)
    requires a <= b
    ensures Percent(a, total) <= Percent(b, total)
  {
    if total > 0 {
      var na, nb, d := 200 * a + total, 200 * b + total, 2 * total;
      var q := nb / d;
      assert nb < d * q + d;
      assert d * (q + 1) == d * q + d;
      DivAtMost(na, d, q);
    }
  }

  predicate IsDone(m: Milestone) { m.isCompleted }

  /** `milestones.filter((m) => m.is_completed).length`. */
  function CompletedCount(milestones: seq<Milestone>): (n: nat)
    ensures n <= |milestones|
    ensures n == |Seqs.Filter(milestones, IsDone)|
  {
    |Seqs.Filter(milestones, IsDone)|
  }

  /** No milestone done gives a count of 0; all done gives the full count. */
  lemma CompletedCountExtremes(milestones: seq<Milestone>)
    ensures (forall i :: 0 <= i < |milestones| ==> !milestones[i].isCompleted) ==> CompletedCount(milestones) == 0
    ensures (forall i :: 0 <= i < |milestones| ==> milestones[i].isCompleted) ==> CompletedCount(milestones) == |milestones|
  {
    if forall i :: 0 <= i < |milestones| ==> !milestones[i].isCompleted {
      Seqs.FilterNone(milestones, IsDone);
    }
    if forall i :: 0 <= i < |milestones| ==> milestones[i].isCompleted {
      Seqs.FilterAll(milestones, IsDone);
    }
  }

  datatype Icon = Heart | Briefcase | Wallet | User | BookOpen

  datatype Accent = Accent(pill: string, bar: string, icon: string)

  /** `categoryIcons`: each category's own icon. */
  function KnownIcon(c: Category): Icon {
    match c
    case Health => Heart
    case Career => Briefcase
    case Finance => Wallet
    case Personal => User
    case Learning => BookOpen
  }

  /** `categoryIcons[key] || User`. */
  function CategoryIcon(key: string): (icon: Icon)
    ensures ParseCategory(key).None? ==> icon == User
    ensures ParseCategory(key).Some? ==> icon == KnownIcon(ParseCategory(key).value)
  {
    match ParseCategory(key)
    case Some(c) => KnownIcon(c)
    case None => User
  }

  /** Distinct categories show distinct icons. */
  lemma KnownIconsDistinct(a: Category, b: Category)
    requires a != b
    ensures KnownIcon(a) != KnownIcon(b)
  {
  }

  /** `categoryAccents`: each category's own colours. */
  function KnownAccent(c: Category): Accent {
    match c
    case Health => Accent("bg-emerald-50 text-emerald-600 dark:bg-emerald-950 dark:text-emerald-400", "bg-emerald-500", "text-emerald-500")
    case Career => Accent("bg-blue-50 text-blue-600 dark:bg-blue-950 dark:text-blue-400", "bg-blue-500", "text-blue-500")
    case Finance => Accent("bg-amber-50 text-amber-600 dark:bg-amber-950 dark:text-amber-400", "bg-amber-500", "text-amber-500")
    case Personal => Accent("bg-purple-50 text-purple-600 dark:bg-purple-950 dark:text-purple-400", "bg-purple-500", "text-purple-500")
    case Learning => Accent("bg-pink-50 text-pink-600 dark:bg-pink-950 dark:text-pink-400", "bg-pink-500", "text-pink-500")
  }

  /** `categoryAccents[key] || categoryAccents.personal`. */
  function CategoryAccent(key: string): (a: Accent)
    ensures ParseCategory(key).None? ==> a == KnownAccent(Personal)
    ensures ParseCategory(key).Some? ==> a == KnownAccent(ParseCategory(key).value)
  {
    match ParseCategory(key)
    case Some(c) => KnownAccent(c)
    case None => KnownAccent(Personal)
  }

  datatype CardView = CardView(
    categoryLabel: Option<string>,
    completed: nat,
    total: nat,
    pct: nat,
    icon: Icon,
    accent: Accent,
    showProgress: bool)

  /** What `GoalCard` shows for a goal and its milestones (`milestones` defaults to `[]`). */
  function Card(goal: Goal, milestones: Option<seq<Milestone>>): (v: CardView)
    ensures v.total == |Seqs.OrEmpty(milestones)|
    ensures v.completed == CompletedCount(Seqs.OrEmpty(milestones)) && v.completed <= v.total
    ensures v.pct == (if v.total == 0 then 0 else Percent(v.completed, v.total)) && v.pct <= 100
    ensures v.showProgress <==> v.total > 0
    ensures v.categoryLabel == Some(GoalCategories()[CategoryIndex(goal.category)].labelText)
    ensures v.icon == KnownIcon(goal.category)
    ensures v.accent == KnownAccent(goal.category)
  {
    var ms := Seqs.OrEmpty(milestones);
    var completed := CompletedCount(ms);
    var total := |ms|;
    PercentBounds(completed, total);
    CategoryRoundTrip(goal.category);
    var category := FindCategoryOption(CategoryValue(goal.category));
    CardView(
      match category case Some(o) => Some(o.labelText) case None => None,
      completed, total, Percent(completed, total),
      CategoryIcon(CategoryValue(goal.category)),
      CategoryAccent(CategoryValue(goal.category)),
      total > 0)
  }
}
