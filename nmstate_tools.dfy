/** The two MCP tools of main.py: `nmstatectl_show`, which asks the state
    engine for the network state and optionally narrows it to one interface,
    and `nmstatectl_apply`, which hands a YAML document to the engine and
    never returns a result. The state engine (`libnmstate.show`,
    `libnmstate.apply`) and the YAML parser are function parameters. */
module NmstateTools {
  import opened Json

  /** A network state as `libnmstate.show` returns it: a dictionary. */
  type NetState = map<string, Value>

  /** The keyword arguments passed to `libnmstate.show`. */
  type ShowArgs = map<string, bool>

  /** `Interface.KEY` and `Interface.NAME` of libnmstate's schema. */
  const InterfacesKey: string := "interfaces"
  const NameKey: string := "name"

  const KernelOnlyArg: string := "kernel_only"
  const RunningConfigOnlyArg: string := "running_config_only"
  const ShowSecretsArg: string := "show_secrets"

  // ---------------------------------------------------------------------
  // The option map
  // ---------------------------------------------------------------------

  /** `args` holds exactly the engine options the three flags ask for, each
      set to True. */
  predicate ShowArgsFor(args: ShowArgs, kernelOnly: bool, runningConfig: bool, showSecrets: bool)
  {
    && (KernelOnlyArg in args <==> kernelOnly)
    && (RunningConfigOnlyArg in args <==> runningConfig)
    && (ShowSecretsArg in args <==> showSecrets)
    && forall key | key in args :: args[key] && key in {KernelOnlyArg, RunningConfigOnlyArg, ShowSecretsArg}
  }

  /** Builds `show_args` by the conditional in-place updates of the tool. */
  method BuildShowArgs(kernelOnly: bool, runningConfig: bool, showSecrets: bool) returns (args: ShowArgs)
    ensures ShowArgsFor(args, kernelOnly, runningConfig, showSecrets)
  {
    args := map[];
    if kernelOnly {
      args := args[KernelOnlyArg := true];
    }
    if runningConfig {
      args := args[RunningConfigOnlyArg := true];
    }
    if showSecrets {
      args := args[ShowSecretsArg := true];
    }
  }

  /** The flags determine the option map: there is only one that fits. */
  lemma ShowArgsUnique(a: ShowArgs, b: ShowArgs, kernelOnly: bool, runningConfig: bool, showSecrets: bool)
    requires ShowArgsFor(a, kernelOnly, runningConfig, showSecrets)
    requires ShowArgsFor(b, kernelOnly, runningConfig, showSecrets)
    ensures a == b
  {
    assert a.Keys == b.Keys by {
      forall key | key in a ensures key in b {
        assert key in {KernelOnlyArg, RunningConfigOnlyArg, ShowSecretsArg};
      }
      forall key | key in b ensures key in a {
        assert key in {KernelOnlyArg, RunningConfigOnlyArg, ShowSecretsArg};
      }
    }
  }

  // ---------------------------------------------------------------------
  // The interface filter
  // ---------------------------------------------------------------------

  /** `iface.get(Interface.NAME) == ifname` for a dictionary entry. */
  predicate NamedAs(iface: Value, ifname: string)
  {
    iface.Object? && NameKey in iface.fields && iface.fields[NameKey] == Str(ifname)
  }

  /** What iterating `net_state.get(Interface.KEY, [])` and calling `.get` on
      each element yields: the entries when they are all dictionaries, or
      None when Python raises (a non-iterable value, or an element that is
      not a dictionary). An empty string or dictionary iterates as nothing. */
  function InterfaceEntries(state: NetState): (r: Option<seq<Value>>)
    ensures InterfacesKey !in state ==> r == Some([])
    ensures r.Some? ==> forall i | 0 <= i < |r.value| :: r.value[i].Object?
    ensures r.Some? && InterfacesKey in state && state[InterfacesKey].Array? ==> r.value == state[InterfacesKey].items
    ensures InterfacesKey in state && (state[InterfacesKey] == Str("") || state[InterfacesKey] == Object(map[])) ==> r == Some([])
    ensures InterfacesKey in state && state[InterfacesKey].Array?
            && (forall i | 0 <= i < |state[InterfacesKey].items| :: state[InterfacesKey].items[i].Object?)
            ==> r == Some(state[InterfacesKey].items)
    ensures r.None? <==>
            && InterfacesKey in state
            && (|| state[InterfacesKey].Null? || state[InterfacesKey].Bool? || state[InterfacesKey].Number?
                || (state[InterfacesKey].Str? && state[InterfacesKey].s != "")
                || (state[InterfacesKey].Object? && state[InterfacesKey].fields != map[])
                || (state[InterfacesKey].Array?
                    && exists i | 0 <= i < |state[InterfacesKey].items| :: !state[InterfacesKey].items[i].Object?))
  {
    if InterfacesKey !in state then Some([])
    else
      match state[InterfacesKey]
      case Array(items) => if forall i | 0 <= i < |items| :: items[i].Object? then Some(items) else None
      case Str(s) => if s == "" then Some([]) else None
      case Object(m) => if m == map[] then Some([]) else None
      case _ => None
  }

  /** The list comprehension of the tool: the entries named `ifname`. */
  function FilterByName(ifaces: seq<Value>, ifname: string): (r: seq<Value>)
    ensures |r| <= |ifaces|
  {
    if ifaces == [] then []
    else if NamedAs(ifaces[0], ifname) then [ifaces[0]] + FilterByName(ifaces[1..], ifname)
    else FilterByName(ifaces[1..], ifname)
  }

  /** Exact membership: an entry is kept if and only if it is in the input
      and carries the name. */
  lemma {:induction false} FilterMembership(ifaces: seq<Value>, ifname: string, x: Value)
    ensures x in FilterByName(ifaces, ifname) <==> x in ifaces && NamedAs(x, ifname)
  {
    if ifaces != [] {
      FilterMembership(ifaces[1..], ifname, x);
      assert ifaces == [ifaces[0]] + ifaces[1..];
    }
  }

  /** Multiplicities: each matching entry is kept as often as it occurs,
      each other entry not at all. */
  lemma {:induction false} FilterMultiplicity(ifaces: seq<Value>, ifname: string, x: Value)
    ensures multiset(FilterByName(ifaces, ifname))[x] == if NamedAs(x, ifname) then multiset(ifaces)[x] else 0
  {
    if ifaces != [] {
      FilterMultiplicity(ifaces[1..], ifname, x);
      assert ifaces == [ifaces[0]] + ifaces[1..];
    }
  }

  /** Order is preserved: filtering a concatenation filters each part. */
  lemma {:induction false} FilterConcat(a: seq<Value>, b: seq<Value>, ifname: string)
    ensures FilterByName(a + b, ifname) == FilterByName(a, ifname) + FilterByName(b, ifname)
  {
    if a == [] {
      assert a + b == b;
    } else {
      FilterConcat(a[1..], b, ifname);
      var ab := a + b;
      assert ab != [] && ab[0] == a[0];
      assert ab[1..] == a[1..] + b;
      var tail := FilterByName(a[1..], ifname) + FilterByName(b, ifname);
      if NamedAs(a[0], ifname) {
        calc {
          FilterByName(ab, ifname);
          [a[0]] + FilterByName(ab[1..], ifname);
          [a[0]] + tail;
          ([a[0]] + FilterByName(a[1..], ifname)) + FilterByName(b, ifname);
        }
      } else {
        assert FilterByName(ab, ifname) == FilterByName(ab[1..], ifname);
      }
    }
  }

  /** `s` is obtained from `t` by deleting elements. */
  predicate IsSubsequence(s: seq<Value>, t: seq<Value>)
    decreases |t|
  {
    if s == [] then true
    else if t == [] then false
    else (s[0] == t[0] && IsSubsequence(s[1..], t[1..])) || IsSubsequence(s, t[1..])
  }

  /** The kept entries appear in their original order. */
  lemma {:induction false} FilterIsSubsequence(ifaces: seq<Value>, ifname: string)
    ensures IsSubsequence(FilterByName(ifaces, ifname), ifaces)
  {
    if ifaces != [] {
      FilterIsSubsequence(ifaces[1..], ifname);
      var rest := FilterByName(ifaces[1..], ifname);
      if NamedAs(ifaces[0], ifname) {
        assert ([ifaces[0]] + rest)[1..] == rest;
      } else if rest != [] {
        assert IsSubsequence(rest, ifaces[1..]);
      }
    }
  }

  /** The filter finds nothing exactly when no entry carries the name. */
  lemma {:induction false} FilterEmptyIff(ifaces: seq<Value>, ifname: string)
    ensures FilterByName(ifaces, ifname) == [] <==> forall i | 0 <= i < |ifaces| :: !NamedAs(ifaces[i], ifname)
  {
    if ifaces != [] {
      FilterEmptyIff(ifaces[1..], ifname);
      if !NamedAs(ifaces[0], ifname) {
        forall i | 0 < i < |ifaces| ensures ifaces[i] == ifaces[1..][i - 1] { }
      }
    }
  }

  /** Narrowing an already narrowed list changes nothing. */
  lemma {:induction false} FilterIdempotent(ifaces: seq<Value>, ifname: string)
    ensures FilterByName(FilterByName(ifaces, ifname), ifname) == FilterByName(ifaces, ifname)
  {
    if ifaces != [] {
      FilterIdempotent(ifaces[1..], ifname);
    }
  }

  // ---------------------------------------------------------------------
  // nmstatectl_show
  // ---------------------------------------------------------------------

  /** The error results of `nmstatectl_show`. */
  datatype ShowFailure =
    | InterfaceNotFound(ifname: string)
    | StateNotRetrieved(ifname: string)
    | EngineRaised(detail: string)
    | InterfacesUnreadable

  /** A tool result: the state serialised with `json.dumps(..., indent=2)`
      (the text format is not modelled), or an error string. */
  datatype ShowOutput = Rendered(state: NetState) | Failed(failure: ShowFailure)

  /** The error text the tool returns. For `InterfacesUnreadable` Python
      appends the message of a TypeError or AttributeError, which is not
      modelled. */
  function Message(f: ShowFailure): (m: string)
    ensures "Error" <= m
  {
    var tail :=
      match f
      case InterfaceNotFound(n) => ": Interface '" + n + "' not found."
      case StateNotRetrieved(n) => ": Could not retrieve state for interface '" + n + "'."
      case EngineRaised(e) => " showing network state: " + e
      case InterfacesUnreadable => " showing network state: ";
    "Error" + tail
  }

  /** The relation between the tool's result and what the engine returned:
      no name (None or "") leaves the state as it is; otherwise the
      `interfaces` entry is replaced by the entries with that name and every
      other key keeps its value, or the result is an error. */
  predicate Answers(out: ShowOutput, shown: Result<NetState>, ifname: Option<string>)
  {
    match shown
    case Err(e) => out == Failed(EngineRaised(e))
    case Ok(state) =>
      if ifname.None? || ifname.value == "" then out == Rendered(state)
      else
        match InterfaceEntries(state)
        case None => out == Failed(InterfacesUnreadable)
        case Some(ifaces) =>
          var kept := FilterByName(ifaces, ifname.value);
          if kept == [] then out == Failed(InterfaceNotFound(ifname.value))
          else
            && out.Rendered?
            && out.state.Keys == state.Keys + {InterfacesKey}
            && out.state[InterfacesKey] == Array(kept)
            && forall key | key in state && key != InterfacesKey :: out.state[key] == state[key]
  }

  /** At most one result answers a given engine result and name, so the
      tool's result cannot depend on `json_format`. */
  lemma AnswerIsUnique(o1: ShowOutput, o2: ShowOutput, shown: Result<NetState>, ifname: Option<string>)
    requires Answers(o1, shown, ifname) && Answers(o2, shown, ifname)
    ensures o1 == o2
  {
    if o1.Rendered? && o2.Rendered? && shown.Ok? && ifname.Some? && ifname.value != "" {
      var state := shown.value;
      forall key | key in o1.state ensures o2.state[key] == o1.state[key] {
        if key != InterfacesKey {
          assert key in state;
        }
      }
      assert o1.state == o2.state;
    }
  }

  /** `nmstatectl_show`. `show` stands for `libnmstate.show` called with the
      option map; `json_format` selects between two identical renderings. */
  method NmstatectlShow(
    ifname: Option<string>,
    jsonFormat: bool,
    kernelOnly: bool,
    runningConfig: bool,
    showSecrets: bool,
    show: ShowArgs -> Result<NetState>)
    returns (out: ShowOutput)
    ensures forall args | ShowArgsFor(args, kernelOnly, runningConfig, showSecrets) :: Answers(out, show(args), ifname)
    ensures !(out.Failed? && out.failure.StateNotRetrieved?)
  {
    var args := BuildShowArgs(kernelOnly, runningConfig, showSecrets);
    forall other | ShowArgsFor(other, kernelOnly, runningConfig, showSecrets) ensures other == args {
      ShowArgsUnique(other, args, kernelOnly, runningConfig, showSecrets);
    }
    var shown := show(args);
    if shown.Err? {
      out := Failed(EngineRaised(shown.error));
      return;
    }
    var netState := shown.value;
    if ifname.Some? && ifname.value != "" {
      var name := ifname.value;
      var entries := InterfaceEntries(netState);
      if entries.None? {
        out := Failed(InterfacesUnreadable);
        return;
      }
      var filtered := FilterByName(entries.value, name);
      if filtered == [] {
        out := Failed(InterfaceNotFound(name));
        return;
      }
      netState := netState[InterfacesKey := Array(filtered)];
      if netState[InterfacesKey] == Array([]) {
        out := Failed(StateNotRetrieved(name));
        return;
      }
    }
    if jsonFormat {
      out := Rendered(netState);
    } else {
      out := Rendered(netState);
    }
  }

  // ---------------------------------------------------------------------
  // nmstatectl_apply
  // ---------------------------------------------------------------------

  /** What a call of `nmstatectl_apply` does besides returning None: the
      document it handed to the engine, if any, and the lines it printed. */
  datatype ApplyEffects = ApplyEffects(applied: Option<Value>, printed: seq<string>)

  /** `nmstatectl_apply`. `parse` stands for `yaml.safe_load` and `apply` for
      `libnmstate.apply` (None when it returns, the exception text when it
      raises). The tool's return value is None on every path, so the method
      has no result besides the effects; every failure is caught and
      printed. */
  method NmstatectlApply(
    stateContent: string,
    parse: string -> Result<Value>,
    apply: Value -> Option<string>)
    returns (effects: ApplyEffects)
    ensures parse(stateContent).Err? ==>
      effects == ApplyEffects(None, ["Error applying network state: " + parse(stateContent).error])
    ensures parse(stateContent).Ok? ==> effects.applied == Some(parse(stateContent).value)
    ensures parse(stateContent).Ok? && apply(parse(stateContent).value).Some? ==>
      effects.printed == ["Error applying network state: " + apply(parse(stateContent).value).value]
    ensures effects.printed == [] <==> parse(stateContent).Ok? && apply(parse(stateContent).value).None?
  {
    var data := parse(stateContent);
    if data.Err? {
      effects := ApplyEffects(None, ["Error applying network state: " + data.error]);
      return;
    }
    var raised := apply(data.value);
    if raised.Some? {
      effects := ApplyEffects(Some(data.value), ["Error applying network state: " + raised.value]);
    } else {
      effects := ApplyEffects(Some(data.value), []);
    }
  }
}
