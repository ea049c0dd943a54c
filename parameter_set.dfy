/** The job configuration handed to a producer's constructor: named, typed
    parameters. `getParameter` on an absent name, or with the wrong type,
    raises an exception, modelled as `None`. */
module ParameterSet {
  import opened Wrappers

  datatype Param =
    | Double(d: real)
    | Str(s: string)
    | Strings(ss: seq<string>)
    | Tag(tag: string)
    | FileInPath(path: string)

  type ParameterSet = map<string, Param>

  /** `exists(name) ? getParameter<double>(name) : dflt` */
  function DoubleOr(ps: ParameterSet, name: string, dflt: real): (r: Option<real>)
    ensures name !in ps ==> r == Some(dflt)
    ensures name in ps ==> (r.Some? <==> ps[name].Double?)
    ensures name in ps && r.Some? ==> r.value == ps[name].d
  {
    if name !in ps then Some(dflt)
    else if ps[name].Double? then Some(ps[name].d)
    else None
  }

  /** `exists(name) ? getParameter<std::string>(name) : dflt` */
  function StrOr(ps: ParameterSet, name: string, dflt: string): (r: Option<string>)
    ensures name !in ps ==> r == Some(dflt)
    ensures name in ps ==> (r.Some? <==> ps[name].Str?)
    ensures name in ps && r.Some? ==> r.value == ps[name].s
  {
    if name !in ps then Some(dflt)
    else if ps[name].Str? then Some(ps[name].s)
    else None
  }

  /** `exists(name) ? getParameter<edm::InputTag>(name) : edm::InputTag(dflt)` */
  function TagOr(ps: ParameterSet, name: string, dflt: string): (r: Option<string>)
    ensures name !in ps ==> r == Some(dflt)
    ensures name in ps ==> (r.Some? <==> ps[name].Tag?)
    ensures name in ps && r.Some? ==> r.value == ps[name].tag
  {
    if name !in ps then Some(dflt)
    else if ps[name].Tag? then Some(ps[name].tag)
    else None
  }

  /** The value an optional parameter takes: the given one, else the default. */
  function GivenDouble(ps: ParameterSet, name: string, dflt: real): real {
    if name in ps && ps[name].Double? then ps[name].d else dflt
  }

  function GivenStr(ps: ParameterSet, name: string, dflt: string): string {
    if name in ps && ps[name].Str? then ps[name].s else dflt
  }

  function GivenTag(ps: ParameterSet, name: string, dflt: string): string {
    if name in ps && ps[name].Tag? then ps[name].tag else dflt
  }

  /** `getParameter<edm::InputTag>(name)`, required. */
  function RequiredTag(ps: ParameterSet, name: string): (r: Option<string>)
    ensures r.Some? <==> name in ps && ps[name].Tag?
    ensures r.Some? ==> r.value == ps[name].tag
  {
    if name in ps && ps[name].Tag? then Some(ps[name].tag) else None
  }

  /** `getParameter<std::string>(name)`, required. */
  function RequiredStr(ps: ParameterSet, name: string): (r: Option<string>)
    ensures r.Some? <==> name in ps && ps[name].Str?
    ensures r.Some? ==> r.value == ps[name].s
  {
    if name in ps && ps[name].Str? then Some(ps[name].s) else None
  }

  /** `getParameter<std::vector<std::string>>(name)`, required. */
  function RequiredStrings(ps: ParameterSet, name: string): (r: Option<seq<string>>)
    ensures r.Some? <==> name in ps && ps[name].Strings?
    ensures r.Some? ==> r.value == ps[name].ss
  {
    if name in ps && ps[name].Strings? then Some(ps[name].ss) else None
  }

  /** `getParameter<edm::FileInPath>(name)`, required. */
  function RequiredPath(ps: ParameterSet, name: string): (r: Option<string>)
    ensures r.Some? <==> name in ps && ps[name].FileInPath?
    ensures r.Some? ==> r.value == ps[name].path
  {
    if name in ps && ps[name].FileInPath? then Some(ps[name].path) else None
  }
}
