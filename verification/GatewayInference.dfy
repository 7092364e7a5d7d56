/** `stewardctl gateway inference set` (cmd/stewardctl/gateway.go): a route's protections stay
    on until a command turns them off by name.

    A flag is None when it was not given.  Provider presets are already resolved into `id` and
    `baseUrl`; the remaining connection settings travel as `connection`.
 */
module GatewayInference {
  import opened Common

  datatype Route = Route(
    id: string, baseUrl: string, connection: string, upstreamModel: string, maxTokensCap: int,
    requireReceipts: bool, requireTaskScope: bool, maxCalls: int, profile: string)

  datatype Command = Command(
    id: string, baseUrl: string, connection: string,
    upstreamModel: Option<string>, maxTokensCap: Option<int>,
    maxCalls: Option<int>, disallowCalls: Option<bool>,
    profile: Option<string>, disallowProfile: Option<bool>,
    requireReceipts: Option<bool>, disallowReceipts: Option<bool>,
    requireTaskScope: Option<bool>, disallowTaskScope: Option<bool>)

  predicate IsTrue(x: Option<bool>) {
    x.Some? && x.value
  }

  predicate IsFalse(x: Option<bool>) {
    x.Some? && !x.value
  }

  const MAX_CALLS := 1_000_000

  /** The flag combinations the command refuses before it looks at any route. */
  predicate Refused(cmd: Command) {
    || (cmd.profile.Some? && (cmd.disallowProfile.Some? || cmd.profile.value == ""))
    || IsFalse(cmd.disallowProfile)
    || (cmd.maxCalls.Some? && cmd.disallowCalls.Some?)
    || (cmd.maxCalls.Some? && !(1 <= cmd.maxCalls.value <= MAX_CALLS))
    || IsFalse(cmd.disallowCalls)
    || (cmd.requireReceipts.Some? && cmd.disallowReceipts.Some?)
    || IsFalse(cmd.requireReceipts) || IsFalse(cmd.disallowReceipts)
    || (cmd.requireTaskScope.Some? && cmd.disallowTaskScope.Some?)
    || IsFalse(cmd.requireTaskScope) || IsFalse(cmd.disallowTaskScope)
    || cmd.id == "" || cmd.baseUrl == ""
  }

  function GetOr<T>(x: Option<T>, default_: T): T {
    if x.Some? then x.value else default_
  }

  /** The route built from the flags alone. */
  function Built(cmd: Command): Route {
    Route(cmd.id, cmd.baseUrl, cmd.connection, GetOr(cmd.upstreamModel, ""), GetOr(cmd.maxTokensCap, 0),
          IsTrue(cmd.requireReceipts), IsTrue(cmd.requireTaskScope), GetOr(cmd.maxCalls, 0), GetOr(cmd.profile, ""))
  }

  /** The same route when one with this ID is installed: what was not given is kept. */
  function Merged(cmd: Command, installed: Route): Route {
    var r := Built(cmd);
    var profile := if cmd.profile.None? && cmd.disallowProfile.None? then installed.profile else r.profile;
    r.(profile := profile,
       upstreamModel := if profile != "" && cmd.upstreamModel.None? then installed.upstreamModel else r.upstreamModel,
       maxTokensCap := if profile != "" && cmd.maxTokensCap.None? then installed.maxTokensCap else r.maxTokensCap,
       maxCalls := if cmd.maxCalls.None? && cmd.disallowCalls.None? then installed.maxCalls else r.maxCalls,
       requireReceipts := if cmd.requireReceipts.None? && cmd.disallowReceipts.None? then installed.requireReceipts else r.requireReceipts,
       requireTaskScope := if cmd.requireTaskScope.None? && cmd.disallowTaskScope.None? then installed.requireTaskScope else r.requireTaskScope)
  }

  function PutRoute(routes: seq<Route>, cmd: Command): seq<Route> {
    if routes == [] then [Built(cmd)]
    else if routes[0].id == cmd.id then [Merged(cmd, routes[0])] + routes[1..]
    else [routes[0]] + PutRoute(routes[1..], cmd)
  }

  function Set(routes: seq<Route>, cmd: Command): Option<seq<Route>> {
    if Refused(cmd) then None else Some(PutRoute(routes, cmd))
  }

  // ---------------------------------------------------------------- the code

  class Routes {
    var routes: seq<Route>

    constructor (routes: seq<Route>)
      ensures this.routes == routes
    {
      this.routes := routes;
    }

    /** The update of the installed route, field by field. */
    method Preserve(cmd: Command, installed: Route) returns (route: Route)
      requires !Refused(cmd)
      ensures route == Merged(cmd, installed)
    {
      var receipts := IsTrue(cmd.requireReceipts);
      var scope := IsTrue(cmd.requireTaskScope);
      route := Built(cmd);
      if cmd.profile.None? && !IsTrue(cmd.disallowProfile) {
        route := route.(profile := installed.profile);
      }
      if route.profile != "" {
        if cmd.upstreamModel.None? {
          route := route.(upstreamModel := installed.upstreamModel);
        }
        if cmd.maxTokensCap.None? {
          route := route.(maxTokensCap := installed.maxTokensCap);
        }
      }
      if cmd.maxCalls.None? && !IsTrue(cmd.disallowCalls) {
        route := route.(maxCalls := installed.maxCalls);
      }
      if !receipts && !IsTrue(cmd.disallowReceipts) {
        route := route.(requireReceipts := installed.requireReceipts);
      }
      if !scope && !IsTrue(cmd.disallowTaskScope) {
        route := route.(requireTaskScope := installed.requireTaskScope);
      }
    }

    /** The route loop: the first route with the ID is replaced by the merged one, or the new
        route is appended. */
    method Replace(config: seq<Route>, cmd: Command) returns (changed: seq<Route>)
      requires !Refused(cmd)
      ensures changed == PutRoute(config, cmd)
    {
      for index := 0 to |config|
        invariant PutRoute(config, cmd) == config[..index] + PutRoute(config[index..], cmd)
      {
        assert config[index..][0] == config[index] && config[index..][1..] == config[index + 1..];
        if config[index].id == cmd.id {
          var route := Preserve(cmd, config[index]);
          assert config[index := route] == config[..index] + ([route] + config[index + 1..]);
          return config[index := route];
        }
        assert config[..index] + ([config[index]] + PutRoute(config[index + 1..], cmd))
            == config[..index + 1] + PutRoute(config[index + 1..], cmd);
      }
      assert config[|config|..] == [] && config[..|config|] == config;
      return config + [Built(cmd)];
    }

    /** `gateway inference set`; `written` says whether the new file passed its validation and
        was stored. */
    method SetRoute(cmd: Command, written: bool) returns (ok: bool)
      modifies this
      ensures ok <==> written && Set(old(routes), cmd).Some?
      ensures routes == AfterCommand(old(routes), Use(cmd, written))
    {
      if Refused(cmd) {
        return false;
      }
      var changed := Replace(routes, cmd);
      if !written {
        return false;
      }
      routes := changed;
      return true;
    }
  }

  // ---------------------------------------------------------------- sequences of commands

  datatype Setting = Receipts | TaskScope | CallAllowance | Profile

  predicate IsOn(r: Route, x: Setting) {
    match x
    case Receipts => r.requireReceipts
    case TaskScope => r.requireTaskScope
    case CallAllowance => r.maxCalls > 0
    case Profile => r.profile != ""
  }

  /** The command gives the flag that turns the setting off. */
  predicate Disallows(cmd: Command, x: Setting) {
    match x
    case Receipts => cmd.disallowReceipts.Some?
    case TaskScope => cmd.disallowTaskScope.Some?
    case CallAllowance => cmd.disallowCalls.Some?
    case Profile => cmd.disallowProfile.Some?
  }

  function Find(routes: seq<Route>, id: string): Option<Route> {
    if routes == [] then None else if routes[0].id == id then Some(routes[0]) else Find(routes[1..], id)
  }

  /** One use of the command; the new configuration may still fail to be written. */
  datatype Use = Use(cmd: Command, written: bool)

  function AfterCommand(routes: seq<Route>, use: Use): seq<Route> {
    if use.written && Set(routes, use.cmd).Some? then Set(routes, use.cmd).value else routes
  }

  function AfterCommands(routes: seq<Route>, uses: seq<Use>): seq<Route>
    decreases |uses|
  {
    if uses == [] then routes else AfterCommands(AfterCommand(routes, uses[0]), uses[1..])
  }

  /** A command replaces the installed route of its ID by the merged one and touches no other. */
  lemma {:induction false} PutRouteFinds(routes: seq<Route>, cmd: Command, id: string)
    ensures Find(PutRoute(routes, cmd), id) ==
            if id != cmd.id then Find(routes, id)
            else if Find(routes, id).Some? then Some(Merged(cmd, Find(routes, id).value))
            else Some(Built(cmd))
  {
    if routes == [] || routes[0].id == cmd.id {
    } else {
      PutRouteFinds(routes[1..], cmd, id);
    }
  }

  /** Inference settings ratchet: a protection that is on for a route stays on through any
      sequence of commands, none of which gives its `-disallow` flag for that route. */
  lemma {:induction false} SettingStaysOn(routes: seq<Route>, uses: seq<Use>, id: string, x: Setting)
    requires Find(routes, id).Some? && IsOn(Find(routes, id).value, x)
    requires forall i :: 0 <= i < |uses| && uses[i].cmd.id == id ==> !Disallows(uses[i].cmd, x)
    ensures var r := Find(AfterCommands(routes, uses), id); r.Some? && IsOn(r.value, x)
    decreases |uses|
  {
    if uses == [] {
    } else {
      PutRouteFinds(routes, uses[0].cmd, id);
      SettingStaysOn(AfterCommand(routes, uses[0]), uses[1..], id, x);
    }
  }

  /** A route with a profile keeps its model through any sequence of commands for it, as long as
      none gives `-upstream-model` or `-disallow-request-profile`. */
  lemma {:induction false} ModelIsKept(routes: seq<Route>, uses: seq<Use>, id: string)
    requires Find(routes, id).Some? && Find(routes, id).value.profile != ""
    requires forall i :: 0 <= i < |uses| && uses[i].cmd.id == id ==>
               uses[i].cmd.upstreamModel.None? && uses[i].cmd.disallowProfile.None?
    ensures var r := Find(AfterCommands(routes, uses), id);
            r.Some? && r.value.profile != "" && r.value.upstreamModel == Find(routes, id).value.upstreamModel
    decreases |uses|
  {
    if uses == [] {
    } else {
      PutRouteFinds(routes, uses[0].cmd, id);
      ModelIsKept(AfterCommand(routes, uses[0]), uses[1..], id);
    }
  }

  /** It keeps its token cap as long as none gives `-max-tokens-cap` or
      `-disallow-request-profile`. */
  lemma {:induction false} TokenCapIsKept(routes: seq<Route>, uses: seq<Use>, id: string)
    requires Find(routes, id).Some? && Find(routes, id).value.profile != ""
    requires forall i :: 0 <= i < |uses| && uses[i].cmd.id == id ==>
               uses[i].cmd.maxTokensCap.None? && uses[i].cmd.disallowProfile.None?
    ensures var r := Find(AfterCommands(routes, uses), id);
            r.Some? && r.value.profile != "" && r.value.maxTokensCap == Find(routes, id).value.maxTokensCap
    decreases |uses|
  {
    if uses == [] {
    } else {
      PutRouteFinds(routes, uses[0].cmd, id);
      TokenCapIsKept(AfterCommand(routes, uses[0]), uses[1..], id);
    }
  }

  /** And the profile itself as long as none gives another one or removes it. */
  lemma {:induction false} ProfileIsKept(routes: seq<Route>, uses: seq<Use>, id: string)
    requires Find(routes, id).Some?
    requires forall i :: 0 <= i < |uses| && uses[i].cmd.id == id ==>
               uses[i].cmd.profile.None? && uses[i].cmd.disallowProfile.None?
    ensures var r := Find(AfterCommands(routes, uses), id);
            r.Some? && r.value.profile == Find(routes, id).value.profile
    decreases |uses|
  {
    if uses == [] {
    } else {
      PutRouteFinds(routes, uses[0].cmd, id);
      ProfileIsKept(AfterCommand(routes, uses[0]), uses[1..], id);
    }
  }

  /** Commands for other routes leave a route exactly as it was. */
  lemma {:induction false} OtherRoutesUntouched(routes: seq<Route>, uses: seq<Use>, id: string)
    requires forall i :: 0 <= i < |uses| ==> uses[i].cmd.id != id
    ensures Find(AfterCommands(routes, uses), id) == Find(routes, id)
    decreases |uses|
  {
    if uses == [] {
    } else {
      PutRouteFinds(routes, uses[0].cmd, id);
      OtherRoutesUntouched(AfterCommand(routes, uses[0]), uses[1..], id);
    }
  }

  /** Without a profile the model is not kept: an accepted command that omits `-upstream-model`
      keeps the installed model exactly when the route ends with a profile or had no model. */
  lemma ModelKeptIff(routes: seq<Route>, cmd: Command)
    requires !Refused(cmd) && Find(routes, cmd.id).Some? && cmd.upstreamModel.None?
    ensures var was, r := Find(routes, cmd.id).value, Find(AfterCommand(routes, Use(cmd, true)), cmd.id);
            r.Some? && (r.value.upstreamModel == was.upstreamModel <==>
              cmd.profile.Some? || (cmd.disallowProfile.None? && was.profile != "") || was.upstreamModel == "")
  {
    PutRouteFinds(routes, cmd, cmd.id);
  }
}
