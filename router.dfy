/** router.py: the module-level route table. `route(...)` validates the trigger and the
    action and stores the decorated function under the key
    (trigger, state, query_action, command); `get_route` is an exact lookup. */
module Router {
  import opened Wrappers
  import opened Telegram

  /** TRIGGERS and ACTIONS of router.py; None stands for "no action". */
  const Triggers: seq<string> := ["text", "callback_query", "chat_member", "other"]
  const Actions: seq<Option<string>> := [Some("send"), Some("edit"), Some("edit_markup"), Some("popup"), None]

  datatype RouteKey = RouteKey(
    trigger: string,
    state: Option<int>,
    queryAction: Option<QueryAction>,
    command: Option<string>)

  /** A decorated function, identified by its name. */
  type Handler = string

  /** The FuncInfo named tuple: (call, required_action, cancel_button). */
  datatype FuncInfo = FuncInfo(call: Handler, requiredAction: Option<string>, cancelButton: bool)

  /** The decorator's test `trigger in TRIGGERS and action in ACTIONS`. */
  predicate ValidArguments(trigger: string, action: Option<string>)
  {
    trigger in Triggers && action in Actions
  }

  /** `routes[key]`: the stored entry, or a KeyError when nothing is stored under `key`. */
  function Lookup(routes: map<RouteKey, FuncInfo>, key: RouteKey): (r: Result<FuncInfo>)
    ensures r.Success? <==> key in routes
    ensures r.Success? ==> r.value == routes[key]
    ensures r.Failure? ==> r.error.KeyError?
  {
    if key in routes then Success(routes[key]) else Failure(KeyError("route"))
  }

  /** What one valid registration does to the table: the key is (re)bound, nothing else moves. */
  function Registered(routes: map<RouteKey, FuncInfo>, key: RouteKey, info: FuncInfo): (r: map<RouteKey, FuncInfo>)
    ensures key in r && r[key] == info
    ensures r.Keys == routes.Keys + {key}
    ensures forall k :: k in routes && k != key ==> r[k] == routes[k]
  {
    routes[key := info]
  }

  /** Registering and then looking up the same key gives the registered entry back. */
  lemma RegisterThenLookup(routes: map<RouteKey, FuncInfo>, key: RouteKey, info: FuncInfo)
    ensures Lookup(Registered(routes, key, info), key) == Success(info)
  {
  }

  /** A second registration under a used key replaces the first: the last one wins. */
  lemma LastRegistrationWins(routes: map<RouteKey, FuncInfo>, key: RouteKey, first: FuncInfo, second: FuncInfo)
    ensures Lookup(Registered(Registered(routes, key, first), key, second), key) == Success(second)
  {
  }

  /** A registration leaves every other key's lookup as it was, found or not. */
  lemma RegistrationIsLocal(routes: map<RouteKey, FuncInfo>, key: RouteKey, info: FuncInfo, other: RouteKey)
    requires other != key
    ensures Lookup(Registered(routes, key, info), other) == Lookup(routes, other)
  {
  }

  /** 'multi_action' is not one of the accepted actions, whatever the trigger. */
  lemma MultiActionRejected(trigger: string)
    ensures !ValidArguments(trigger, Some("multi_action"))
  {
  }

  class RouteTable {
    /** The `routes` dict. */
    var routes: map<RouteKey, FuncInfo>

    constructor ()
      ensures routes == map[]
    {
      routes := map[];
    }

    /** `route(trigger, action, state, query_action, command, cancel_button)(func)`:
        on valid arguments stores the entry and returns `func` itself, so the same
        function can be decorated again under another key; otherwise a ValueError
        with the table untouched. */
    method Route(trigger: string, action: Option<string>, state: Option<int>, queryAction: Option<QueryAction>,
                 command: Option<string>, cancelButton: bool, func: Handler) returns (r: Result<Handler>)
      modifies this
      ensures ValidArguments(trigger, action) ==>
                r == Success(func)
                && routes == Registered(old(routes), RouteKey(trigger, state, queryAction, command),
                                        FuncInfo(func, action, cancelButton))
      ensures !ValidArguments(trigger, action) ==>
                r == Failure(ValueError("Invalid arguments")) && routes == old(routes)
    {
      if trigger in Triggers && action in Actions {
        var key := RouteKey(trigger, state, queryAction, command);
        routes := routes[key := FuncInfo(func, action, cancelButton)];
        r := Success(func);
      } else {
        r := Failure(ValueError("Invalid arguments"));
      }
    }

    /** `get_route(trigger, state, query_action, command)`. */
    function GetRoute(trigger: string, state: Option<int>, queryAction: Option<QueryAction>,
                      command: Option<string>): (r: Result<FuncInfo>)
      reads this
      ensures r.Success? <==> RouteKey(trigger, state, queryAction, command) in routes
      ensures r.Success? ==> r.value == routes[RouteKey(trigger, state, queryAction, command)]
      ensures r.Failure? ==> r.error.KeyError?
    {
      Lookup(routes, RouteKey(trigger, state, queryAction, command))
    }
  }
}
