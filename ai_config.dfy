/** The AI part of the application configuration (backend/app/models.py): the configured
  * providers and the tasks that name the provider to use, with the lookup both the
  * functional-documentation analyzer and the query router build their provider choice on. */
module AiConfig {
  import opened Wrappers

  datatype Provider = Provider(name: string, baseUrl: string, apiKey: string, defaultModel: string)
  datatype AiTask = AiTask(taskType: string, providerName: string)
  datatype Config = Config(providers: seq<Provider>, tasks: seq<AiTask>)

  /** `next((x for x in xs if p(x)), None)`, as an index: the first element satisfying `p`. */
  function FirstWhere<T>(xs: seq<T>, p: T -> bool): (r: Option<nat>)
    ensures r.None? <==> forall i :: 0 <= i < |xs| ==> !p(xs[i])
    ensures r.Some? ==> r.value < |xs| && p(xs[r.value]) && forall i :: 0 <= i < r.value ==> !p(xs[i])
  {
    if xs == [] then None
    else if p(xs[0]) then Some(0)
    else match FirstWhere(xs[1..], p)
      case None => None
      case Some(k) => Some(k + 1)
  }

  /** Whether a task is of the type. */
  function OfType(taskType: string): AiTask -> bool {
    (t: AiTask) => t.taskType == taskType
  }

  /** Whether a provider has the name. */
  function Named(name: string): Provider -> bool {
    (pr: Provider) => pr.name == name
  }

  /** The provider the first task of that type names, when both exist: the first provider with
    * that name. Only the first task of the type is consulted: a later task of the same type
    * naming an existing provider is not. */
  function TaskProvider(cfg: Config, taskType: string): (r: Option<Provider>)
    ensures r.Some? ==> r.value in cfg.providers
    ensures r.Some? ==>
              exists t, p :: 0 <= t < |cfg.tasks| && 0 <= p < |cfg.providers|
                && cfg.tasks[t].taskType == taskType && (forall i :: 0 <= i < t ==> cfg.tasks[i].taskType != taskType)
                && r.value == cfg.providers[p] && cfg.providers[p].name == cfg.tasks[t].providerName
                && (forall j :: 0 <= j < p ==> cfg.providers[j].name != cfg.tasks[t].providerName)
    ensures r.Some? <==> FirstWhere(cfg.tasks, OfType(taskType)).Some?
                         && FirstWhere(cfg.providers, Named(cfg.tasks[FirstWhere(cfg.tasks, OfType(taskType)).value].providerName)).Some?
  {
    match FirstWhere(cfg.tasks, OfType(taskType))
    case None => None
    case Some(t) =>
      match FirstWhere(cfg.providers, Named(cfg.tasks[t].providerName))
      case None => None
      case Some(p) => Some(cfg.providers[p])
  }
}
