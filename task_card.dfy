/**
 * What a Kanban card derives from its task (src/components/kanban/task-card.tsx):
 * the overdue flag, the priority badge (colour classes, warning icon, label)
 * and the assignee line.
 */
module TaskCard {
  import opened Wrappers
  import opened Text
  import opened Tasks

  /**
   * `deadline && new Date(deadline) < new Date() && status !== "DONE"`, with the
   * clock reading passed in as `now`. The dashboard's counter uses the same test.
   */
  predicate IsOverdue(deadline: Option<int>, status: string, now: int) {
    deadline.Some? && deadline.value < now && status != "DONE"
  }

  predicate TaskIsOverdue(task: Task, now: int) {
    IsOverdue(task.deadline, task.status.Code(), now)
  }

  /** A card is overdue iff it has a deadline strictly in the past and is not done. */
  lemma TaskOverdueIff(task: Task, now: int)
    ensures TaskIsOverdue(task, now) <==>
              task.deadline.Some? && task.deadline.value < now && task.status != Done
  {
  }

  /** A finished task, or one without a deadline, is never overdue, at any time. */
  lemma NeverOverdue(task: Task)
    requires task.status == Done || task.deadline.None?
    ensures forall now :: !TaskIsOverdue(task, now)
  {
  }

  /** Once overdue, a task stays overdue as time passes (until it is done or its deadline changes). */
  lemma OverdueMonotone(task: Task, now: int, later: int)
    requires now <= later && TaskIsOverdue(task, now)
    ensures TaskIsOverdue(task, later)
  {
  }

  /**
   * The badge's Tailwind classes for one hue, e.g. for "red":
   * "bg-red-100 text-red-800 border-red-200 dark:bg-red-900 dark:text-red-200 dark:border-red-800".
   */
  function ColorClasses(hue: string): string {
    "bg-" + hue + "-100 text-" + hue + "-800 border-" + hue + "-200 dark:bg-" + hue
    + "-900 dark:text-" + hue + "-200 dark:border-" + hue + "-800"
  }

  /** The hue can be read back from its class list. */
  lemma ColorClassesAt(hue: string, k: nat)
    requires k < |hue|
    ensures 3 + k < |ColorClasses(hue)| && ColorClasses(hue)[3 + k] == hue[k]
  {
    var c := ColorClasses(hue);
    assert c == "bg-" + hue + (c[3 + |hue|..]);
    assert ("bg-" + hue)[3 + k] == hue[k];
  }

  const DefaultColor := ColorClasses("gray")

  predicate KnownPriority(p: string) {
    p == "URGENT" || p == "HIGH" || p == "MEDIUM" || p == "LOW"
  }

  /** `getPriorityColor` */
  function PriorityColor(p: string): string {
    if p == "URGENT" then ColorClasses("red")
    else if p == "HIGH" then ColorClasses("orange")
    else if p == "MEDIUM" then ColorClasses("yellow")
    else if p == "LOW" then ColorClasses("green")
    else DefaultColor
  }

  /** The four known priorities get four distinct colour classes; every other value gets gray. */
  lemma PriorityColorsDistinct(p: string, q: string)
    ensures KnownPriority(p) && KnownPriority(q) && p != q ==> PriorityColor(p) != PriorityColor(q)
    ensures KnownPriority(p) ==> PriorityColor(p) != DefaultColor
    ensures !KnownPriority(p) ==> PriorityColor(p) == DefaultColor
  {
    ColorClassesAt("red", 0);
    ColorClassesAt("orange", 0);
    ColorClassesAt("yellow", 0);
    ColorClassesAt("green", 0);
    ColorClassesAt("gray", 0);
    ColorClassesAt("green", 2);
    ColorClassesAt("gray", 2);
  }

  /** `getPriorityIcon(p) !== null`: whether the badge shows the warning triangle. */
  predicate PriorityHasIcon(p: string)
    ensures PriorityHasIcon(p) ==> KnownPriority(p)
  {
    p == "URGENT" || p == "HIGH"
  }

  /** The badge text: every value other than the three named ones reads "Низкий". */
  function PriorityLabel(p: string): (r: string)
    ensures r in {"Срочно", "Высокий", "Средний", "Низкий"}
    ensures r == "Низкий" <==> p != "URGENT" && p != "HIGH" && p != "MEDIUM"
  {
    if p == "URGENT" then "Срочно"
    else if p == "HIGH" then "Высокий"
    else if p == "MEDIUM" then "Средний"
    else "Низкий"
  }

  /** The badge of a task's own priority: warning icon only for the two top levels. */
  lemma PriorityBadge(p: Priority)
    ensures PriorityHasIcon(p.Code()) <==> p == Urgent || p == High
    ensures PriorityLabel(p.Code()) ==
              match p
              case Urgent => "Срочно"
              case High => "Высокий"
              case Medium => "Средний"
              case Low => "Низкий"
  {
  }

  /** `s.charAt(0).toUpperCase()`, which is "" for an empty string. */
  function FirstUpper(s: string): (r: string)
    ensures |r| == if s == "" then 0 else 1
    ensures s != "" ==> r[0] == UpperChar(s[0])
  {
    if s == "" then "" else Upper([s[0]])
  }

  /** The assignee line: `name || email`, or "Не назначен" when there is no assignee. */
  function AssigneeLabel(assignee: Option<Person>): string {
    match assignee
    case None => "Не назначен"
    case Some(p) => if p.name.Some? && p.name.value != "" then p.name.value else p.email
  }

  /**
   * The avatar letter, `name?.charAt(0)?.toUpperCase() || email.charAt(0).toUpperCase()`;
   * no avatar without an assignee.
   */
  function AssigneeInitial(assignee: Option<Person>): (r: Option<string>)
    ensures r.Some? ==> |r.value| <= 1
  {
    match assignee
    case None => None
    case Some(p) =>
      var fromName := if p.name.Some? then FirstUpper(p.name.value) else "";
      Some(if fromName != "" then fromName else FirstUpper(p.email))
  }

  /** The avatar letter is the upper-cased first character of the label that is shown. */
  lemma InitialMatchesLabel(assignee: Option<Person>)
    ensures AssigneeInitial(assignee).None? <==> assignee.None?
    ensures assignee.Some? ==> AssigneeInitial(assignee).value == FirstUpper(AssigneeLabel(assignee))
  {
  }
}
