/** The Spring Scheduled enricher (backend/app/analyzers/enrichers/spring_scheduled.py): each
  * method carrying `@Scheduled` becomes a ScheduledTask node holding the annotation's cron,
  * fixed delay, fixed rate, initial delay and zone, each as text. */
module SpringScheduled {
  import opened Wrappers
  import opened Strs
  import opened Metamodel
  import opened EnricherBase
  import opened NodeWrites

  const ScheduledFqn := "org.springframework.scheduling.annotation.Scheduled"

  /** A method row of the query. */
  datatype MethodRow = MethodRow(className: string, methodFullName: string, methodName: string,
                                 annotations: StoredJson<Annotation>)

  datatype ScheduledTask = ScheduledTask(methodFullName: string, cron: string, fixedDelay: string, fixedRate: string,
                                         initialDelay: string, zone: string)

  /** Python's `str` of an argument value: a text as it is, a list of texts as its display
    * `['a', 'b']`. */
  function PyStr(v: ArgValue): (r: string)
    ensures v.StrList? ==> r != [] && r[0] == '[' && r[|r| - 1] == ']'
  {
    match v
    case Str(s) => s
    case StrList(items) => "[" + Join(", ", seq(|items|, i requires 0 <= i < |items| => "'" + items[i] + "'")) + "]"
  }

  /** `str(args.get(key, ""))`. */
  function ArgStr(args: map<string, ArgValue>, key: string): string {
    if key in args then PyStr(args[key]) else ""
  }

  /** A scheduling argument given as text is kept as it is, the same text `ArgText` reads; an
    * absent one is empty; only a list differs, shown whole rather than by its first element. */
  lemma ArgStrAgreesWithText(args: map<string, ArgValue>, key: string)
    ensures key !in args ==> ArgStr(args, key) == "" == ArgText(args, key)
    ensures key in args && args[key].Str? ==> ArgStr(args, key) == args[key].s == ArgText(args, key)
    ensures key in args && args[key].StrList? ==> ArgStr(args, key)[0] == '['
  {
  }

  /** The task a method row gets: none without `@Scheduled`; otherwise the first such
    * annotation's five arguments as text. */
  function TaskOf(row: MethodRow): Option<ScheduledTask> {
    match GetAnnotation(ParseJson(row.annotations), {ScheduledFqn})
    case None => None
    case Some(ann) =>
      var args := ArgsOf(ann);
      Some(ScheduledTask(row.methodFullName, ArgStr(args, "cron"), ArgStr(args, "fixedDelay"), ArgStr(args, "fixedRate"),
                         ArgStr(args, "initialDelay"), ArgStr(args, "zone")))
  }

  /** A method is a scheduled task exactly when one of its annotations is `@Scheduled`, and its
    * arguments are those of the first one. */
  lemma TaskIffAnnotated(row: MethodRow)
    ensures TaskOf(row).Some? <==>
            exists i :: 0 <= i < |ParseJson(row.annotations)| && ParseJson(row.annotations)[i].name == ScheduledFqn
    ensures TaskOf(row).Some? ==>
              var anns := ParseJson(row.annotations);
              exists i :: 0 <= i < |anns| && anns[i].name == ScheduledFqn && (forall j :: 0 <= j < i ==> anns[j].name != ScheduledFqn)
                          && TaskOf(row).value.cron == ArgStr(ArgsOf(anns[i]), "cron")
                          && TaskOf(row).value.zone == ArgStr(ArgsOf(anns[i]), "zone")
  {
    var anns := ParseJson(row.annotations);
    if exists i :: 0 <= i < |anns| && anns[i].name == ScheduledFqn {
      var i :| 0 <= i < |anns| && anns[i].name == ScheduledFqn;
      assert anns[i].name in {ScheduledFqn};
    } else {
      assert forall i :: 0 <= i < |anns| ==> anns[i].name !in {ScheduledFqn};
    }
    if TaskOf(row).Some? {
      var a := GetAnnotation(anns, {ScheduledFqn}).value;
      var i :| 0 <= i < |anns| && anns[i] == a && (forall j :: 0 <= j < i ==> anns[j].name !in {ScheduledFqn});
      assert anns[i].name in {ScheduledFqn};
    }
  }

  /** `enrich_from_graph`: one ScheduledTask per scheduled method whose write succeeds, and the
    * count of them; every task written is a scheduled method's, and without failures all are. */
  method EnrichFromGraph(rows: seq<MethodRow>, failing: set<string>) returns (written: seq<ScheduledTask>, scheduledTasks: nat)
    ensures scheduledTasks == |written| <= NodeRows(rows, TaskOf)
    ensures forall t :: t in written <==> exists r :: r in rows && TaskOf(r) == Some(t) && r.methodFullName !in failing
    ensures failing == {} ==> scheduledTasks == NodeRows(rows, TaskOf)
  {
    written, scheduledTasks := WriteAll(rows, TaskOf, (r: MethodRow) => r.methodFullName, failing);
    WrittenMembers(rows, TaskOf, (r: MethodRow) => r.methodFullName, failing);
    WrittenCount(rows, TaskOf, (r: MethodRow) => r.methodFullName, failing);
  }
}
