/**
 The two canonicalizers of a ToolFunctionSpec, and the identity hashed over them: legacy-order-v0
 keeps authored order; w2-set-v1 sorts the nine set-like lists by their canonical bytes and refuses
 exact duplicates. Unset and empty fields are omitted; a present but empty message is not.
 */
module CanonicalSpec {
  import opened ByteOrder
  import opened Sequences
  import opened Wrappers
  import opened CanonicalJson

  // ── the declaration ─────────────────────────────────────────────────────────

  datatype EnvVar = EnvVar(name: string, source: string)

  datatype Timeout = Timeout(softSeconds: int, hardSeconds: int)

  datatype Command = Command(
    executable: string,
    arguments: seq<string>,
    workingDirectory: string,
    environment: seq<EnvVar>,
    successExitCodes: seq<int>,
    timeoutPolicy: Option<Timeout>)

  datatype Port = Port(
    name: string,
    dataFormat: string,
    cardinality: int,
    required: bool,
    pathOrGlob: string,
    pathPlacementRule: string,
    companionFiles: seq<string>,
    completionCheck: string)

  datatype Parameter = Parameter(
    name: string,
    kind: int,
    defaultValue: string,
    allowedRange: string,
    required: bool,
    cliArgumentMapping: string,
    mutuallyExclusiveGroup: string)

  datatype Policy = Policy(pathOrPattern: string, kind: int)

  datatype Execution = Execution(
    writablePaths: seq<string>,
    networkPolicy: string,
    requiresRoot: bool,
    requiredCapabilities: seq<string>)

  datatype Spec = Spec(
    command: Option<Command>,
    inputs: seq<Port>,
    outputs: seq<Port>,
    parameters: seq<Parameter>,
    policies: seq<Policy>,
    execution: Option<Execution>)

  // ── tree builders: what is empty is omitted ─────────────────────────────────

  function Map<T, U>(f: T -> U, s: seq<T>): (r: seq<U>)
    ensures |r| == |s| && forall i :: 0 <= i < |s| ==> r[i] == f(s[i])
  {
    if s == [] then [] else [f(s[0])] + Map(f, s[1..])
  }

  function PutStr(v: string): Option<Json> { if v == "" then None else Some(Str(v)) }

  function PutInt(v: int): Option<Json> { if v == 0 then None else Some(Num(v)) }

  function PutBool(v: bool): Option<Json> { if v then Some(Bool(true)) else None }

  function PutList(items: seq<Json>): Option<Json> { if items == [] then None else Some(Arr(items)) }

  /** The fields that are present, under their keys. */
  function Keep(keys: seq<string>, values: seq<Option<Json>>): seq<Field>
    requires |keys| == |values|
  {
    if keys == [] then []
    else (if values[0].Some? then [Field(keys[0], values[0].value)] else []) + Keep(keys[1..], values[1..])
  }

  function StrItem(s: string): Json { Str(s) }

  function NumItem(n: int): Json { Num(n) }

  const ENV_KEYS: seq<string> := ["name", "source"]
  const TIMEOUT_KEYS: seq<string> := ["hard_seconds", "soft_seconds"]
  const COMMAND_KEYS: seq<string> :=
    ["arguments", "environment", "executable", "success_exit_codes", "timeout_policy", "working_directory"]
  const PORT_KEYS: seq<string> :=
    ["cardinality", "companion_files", "completion_check", "data_format", "name", "path_or_glob",
     "path_placement_rule", "required"]
  const PARAMETER_KEYS: seq<string> :=
    ["allowed_range", "cli_argument_mapping", "default_value", "mutually_exclusive_group", "name", "required", "type"]
  const POLICY_KEYS: seq<string> := ["path_or_pattern", "policy"]
  const EXECUTION_KEYS: seq<string> := ["network_policy", "required_capabilities", "requires_root", "writable_paths"]
  const SPEC_KEYS: seq<string> :=
    ["command", "execution_environment", "inputs", "intermediate_file_policies", "outputs", "parameters"]

  function EnvTree(e: EnvVar): Json {
    Obj(Keep(ENV_KEYS, [PutStr(e.name), PutStr(e.source)]))
  }

  function TimeoutTree(t: Timeout): Json {
    Obj(Keep(TIMEOUT_KEYS, [PutInt(t.hardSeconds), PutInt(t.softSeconds)]))
  }

  function PutTimeout(t: Option<Timeout>): Option<Json> {
    if t.Some? then Some(TimeoutTree(t.value)) else None
  }

  /** The two set-like lists are passed in the order they are to appear in. */
  function CommandTree(c: Command, environment: seq<Json>, exitCodes: seq<Json>): Json {
    Obj(Keep(COMMAND_KEYS,
      [PutList(Map(StrItem, c.arguments)), PutList(environment), PutStr(c.executable), PutList(exitCodes),
       PutTimeout(c.timeoutPolicy), PutStr(c.workingDirectory)]))
  }

  function PortTree(p: Port, companions: seq<Json>): Json {
    Obj(Keep(PORT_KEYS,
      [PutInt(p.cardinality), PutList(companions), PutStr(p.completionCheck), PutStr(p.dataFormat), PutStr(p.name),
       PutStr(p.pathOrGlob), PutStr(p.pathPlacementRule), PutBool(p.required)]))
  }

  function ParameterTree(p: Parameter): Json {
    Obj(Keep(PARAMETER_KEYS,
      [PutStr(p.allowedRange), PutStr(p.cliArgumentMapping), PutStr(p.defaultValue), PutStr(p.mutuallyExclusiveGroup),
       PutStr(p.name), PutBool(p.required), PutInt(p.kind)]))
  }

  function PolicyTree(p: Policy): Json {
    Obj(Keep(POLICY_KEYS, [PutStr(p.pathOrPattern), PutInt(p.kind)]))
  }

  function ExecutionTree(e: Execution, writable: seq<Json>, capabilities: seq<Json>): Json {
    Obj(Keep(EXECUTION_KEYS,
      [PutStr(e.networkPolicy), PutList(capabilities), PutBool(e.requiresRoot), PutList(writable)]))
  }

  function SpecTree(command: Option<Json>, execution: Option<Json>, inputs: seq<Json>, policies: seq<Json>,
                    outputs: seq<Json>, parameters: seq<Json>): Json
  {
    Obj(Keep(SPEC_KEYS,
      [command, execution, PutList(inputs), PutList(policies), PutList(outputs), PutList(parameters)]))
  }

  // ── legacy-order-v0 ─────────────────────────────────────────────────────────

  function PortV0(p: Port): Json { PortTree(p, Map(StrItem, p.companionFiles)) }

  function CommandV0(c: Option<Command>): Option<Json> {
    if c.None? then None
    else Some(CommandTree(c.value, Map(EnvTree, c.value.environment), Map(NumItem, c.value.successExitCodes)))
  }

  function ExecutionV0(e: Option<Execution>): Option<Json> {
    if e.None? then None
    else Some(ExecutionTree(e.value, Map(StrItem, e.value.writablePaths), Map(StrItem, e.value.requiredCapabilities)))
  }

  function CanonicalV0(s: Spec): Json {
    SpecTree(CommandV0(s.command), ExecutionV0(s.execution), Map(PortV0, s.inputs), Map(PolicyTree, s.policies),
             Map(PortV0, s.outputs), Map(ParameterTree, s.parameters))
  }

  // ── the canonical set: sort by bytes, refuse duplicates ─────────────────────

  predicate Before(a: Json, b: Json) { Less(Encode(a), Encode(b)) }

  ghost predicate Ascending(s: seq<Json>) {
    forall i, j :: 0 <= i < j < |s| ==> s[i] == s[j] || Before(s[i], s[j])
  }

  ghost predicate StrictlyAscending(s: seq<Json>) {
    forall i, j :: 0 <= i < j < |s| ==> Before(s[i], s[j])
  }

  function Insert(x: Json, s: seq<Json>): seq<Json> {
    if s == [] || Before(x, s[0]) then [x] + s else [s[0]] + Insert(x, s[1..])
  }

  function Sort(s: seq<Json>): seq<Json> {
    if s == [] then [] else Insert(s[0], Sort(s[1..]))
  }

  lemma BeforeTotal(a: Json, b: Json)
    ensures a == b || Before(a, b) || Before(b, a)
    ensures !(Before(a, b) && Before(b, a)) && !Before(a, a)
  {
    LessTotal(Encode(a), Encode(b));
    if Encode(a) == Encode(b) { EncodeInjective(a, b); }
  }

  lemma BeforeTransitive(a: Json, b: Json, c: Json)
    requires Before(a, b) && Before(b, c)
    ensures Before(a, c)
  {
    LessTransitive(Encode(a), Encode(b), Encode(c));
  }

  lemma {:induction false} InsertMultiset(x: Json, s: seq<Json>)
    ensures multiset(Insert(x, s)) == multiset{x} + multiset(s)
    decreases |s|
  {
    hide Before;
    if s != [] {
      TailOf(s);
      if !Before(x, s[0]) { InsertMultiset(x, s[1..]); }
    }
  }

  lemma PrependAscends(x: Json, s: seq<Json>)
    requires Ascending(s) && forall j :: 0 <= j < |s| ==> x == s[j] || Before(x, s[j])
    ensures Ascending([x] + s)
  {
    hide Before;
    var r := [x] + s;
    forall i, j | 0 <= i < j < |r|
      ensures r[i] == r[j] || Before(r[i], r[j])
    {
      if i > 0 { assert r[i] == s[i - 1] && r[j] == s[j - 1]; }
    }
  }

  lemma {:induction false} InsertSpec(x: Json, s: seq<Json>)
    requires Ascending(s)
    ensures Ascending(Insert(x, s))
    decreases |s|
  {
    hide Before;
    if s == [] {
    } else if Before(x, s[0]) {
      forall j | 0 <= j < |s|
        ensures Before(x, s[j])
      {
        if s[0] != s[j] { BeforeTransitive(x, s[0], s[j]); }
      }
      PrependAscends(x, s);
    } else {
      InsertSpec(x, s[1..]);
      BeforeTotal(x, s[0]);
      var t := Insert(x, s[1..]);
      InsertMultiset(x, s[1..]);
      forall j | 0 <= j < |t|
        ensures s[0] == t[j] || Before(s[0], t[j])
      {
        assert t[j] in multiset(t);
      }
      PrependAscends(s[0], t);
    }
  }

  lemma {:induction false} SortSpec(s: seq<Json>)
    ensures Ascending(Sort(s)) && multiset(Sort(s)) == multiset(s)
    decreases |s|
  {
    if s != [] {
      SortSpec(s[1..]);
      InsertSpec(s[0], Sort(s[1..]));
      InsertMultiset(s[0], Sort(s[1..]));
      assert s == [s[0]] + s[1..];
    }
  }

  predicate RepeatsAt(s: seq<Json>, i: int) {
    1 <= i < |s| && Encode(s[i - 1]) == Encode(s[i])
  }

  /** Some element has the bytes of its predecessor. */
  predicate HasEqualNeighbours(s: seq<Json>) {
    exists i :: 0 <= i < |s| && RepeatsAt(s, i)
  }

  function SetOf(s: seq<Json>): Option<seq<Json>> {
    if HasEqualNeighbours(Sort(s)) then None else Some(Sort(s))
  }

  /** sortCanonicalSetIn: the sorted list, or a refusal at the first repeated element. */
  method SortCanonicalSet(items: seq<Json>) returns (r: Option<seq<Json>>)
    ensures r == SetOf(items)
  {
    hide Sort, Encode;
    var elems := Sort(items);
    var sorted: seq<Json> := [];
    var i := 0;
    while i < |elems|
      invariant 0 <= i <= |elems| && sorted == elems[..i]
      invariant forall k :: 0 <= k < i ==> !RepeatsAt(elems, k)
    {
      if i > 0 && Encode(elems[i - 1]) == Encode(elems[i]) {
        assert RepeatsAt(elems, i);
        return None;
      }
      assert elems[..i + 1] == elems[..i] + [elems[i]];
      sorted := sorted + [elems[i]];
      i := i + 1;
    }
    assert sorted == elems;
    return Some(sorted);
  }

  predicate NoDuplicates<T(==)>(s: seq<T>) {
    forall i, j :: 0 <= i < j < |s| ==> s[i] != s[j]
  }

  lemma NoDuplicatesIsMultiplicity<T>(s: seq<T>)
    ensures NoDuplicates(s) <==> forall x :: x in s ==> multiset(s)[x] == 1
    decreases |s|
  {
    if s != [] {
      var t := s[1..];
      assert s == [s[0]] + t;
      NoDuplicatesIsMultiplicity(t);
      assert multiset(s) == multiset{s[0]} + multiset(t);
      assert s[0] in t <==> multiset(t)[s[0]] > 0;
      if NoDuplicates(s) {
        assert NoDuplicates(t);
        assert s[0] !in t;
        forall x | x in s ensures multiset(s)[x] == 1 { if x != s[0] { assert x in t; } }
      }
      if forall x :: x in s ==> multiset(s)[x] == 1 {
        assert s[0] in s && s[0] !in t;
        forall x | x in t ensures multiset(t)[x] == 1 { assert x in s; }
      }
    }
  }

  /** A set-like list is accepted exactly when no element repeats; it then ascends strictly. */
  lemma SetOfSpec(s: seq<Json>)
    ensures SetOf(s).Some? <==> NoDuplicates(s)
    ensures SetOf(s).Some? ==> StrictlyAscending(SetOf(s).value) && multiset(SetOf(s).value) == multiset(s)
  {
    var t := Sort(s);
    SortSpec(s);
    NoDuplicatesIsMultiplicity(s);
    NoDuplicatesIsMultiplicity(t);
    assert forall x :: x in s <==> x in multiset(s);
    assert forall x :: x in t <==> x in multiset(t);
    NeighboursDecide(t);
  }

  lemma NeighboursDecide(t: seq<Json>)
    requires Ascending(t)
    ensures HasEqualNeighbours(t) <==> !NoDuplicates(t)
    ensures NoDuplicates(t) ==> StrictlyAscending(t)
  {
    hide HasEqualNeighbours, NoDuplicates, Ascending, StrictlyAscending;
    if HasEqualNeighbours(t) {
      NeighboursRepeat(t);
    } else {
      DistinctNeighboursAscend(t);
      StrictMeansDistinct(t);
    }
  }

  lemma NeighboursRepeat(t: seq<Json>)
    requires HasEqualNeighbours(t)
    ensures !NoDuplicates(t)
  {
    hide Encode;
    var i :| 0 <= i < |t| && RepeatsAt(t, i);
    EncodeInjective(t[i - 1], t[i]);
  }

  lemma DistinctNeighboursAscend(t: seq<Json>)
    requires Ascending(t) && !HasEqualNeighbours(t)
    ensures StrictlyAscending(t)
  {
    hide Encode, Before;
    forall i, j | 0 <= i < j < |t|
      ensures Before(t[i], t[j])
    {
      assert !RepeatsAt(t, j);
      assert t[j - 1] != t[j];
      if i < j - 1 && t[i] != t[j - 1] { BeforeTransitive(t[i], t[j - 1], t[j]); }
    }
  }

  lemma StrictMeansDistinct(t: seq<Json>)
    requires StrictlyAscending(t)
    ensures NoDuplicates(t)
  {
    hide Before;
    forall i, j | 0 <= i < j < |t|
      ensures t[i] != t[j]
    {
      BeforeTotal(t[i], t[j]);
    }
  }

  lemma HeadsEqual(a: seq<Json>, b: seq<Json>)
    requires StrictlyAscending(a) && StrictlyAscending(b) && a != [] && b != []
    requires a[0] in b && b[0] in a
    ensures a[0] == b[0]
  {
    hide Before;
    var i :| 0 <= i < |b| && b[i] == a[0];
    var j :| 0 <= j < |a| && a[j] == b[0];
    BeforeTotal(a[0], b[0]);
    assert forall k :: 1 <= k < |b| ==> Before(b[0], b[k]);
    assert forall k :: 1 <= k < |a| ==> Before(a[0], a[k]);
  }

  /** Strictly ascending lists are determined by their elements. */
  lemma {:induction false} StrictlyAscendingUnique(a: seq<Json>, b: seq<Json>)
    requires StrictlyAscending(a) && StrictlyAscending(b) && multiset(a) == multiset(b)
    ensures a == b
    decreases |a|
  {
    hide Before;
    assert |multiset(a)| == |a| && |multiset(b)| == |b|;
    if a != [] {
      assert a[0] in multiset(b) && b[0] in multiset(a);
      HeadsEqual(a, b);
      TailOf(a);
      TailOf(b);
      CancelOne(multiset(a[1..]), multiset(b[1..]), a[0]);
      StrictlyAscendingUnique(a[1..], b[1..]);
    }
  }

  lemma SetOfEqual(a: seq<Json>, b: seq<Json>)
    requires SetOf(a).Some? && SetOf(b).Some?
    ensures SetOf(a) == SetOf(b) <==> multiset(a) == multiset(b)
  {
    SetOfSpec(a);
    SetOfSpec(b);
    if multiset(a) == multiset(b) {
      StrictlyAscendingUnique(SetOf(a).value, SetOf(b).value);
    }
  }

  // ── w2-set-v1 ───────────────────────────────────────────────────────────────

  function CommandV1(c: Command): Option<Json> {
    var environment, exitCodes := SetOf(Map(EnvTree, c.environment)), SetOf(Map(NumItem, c.successExitCodes));
    if environment.None? || exitCodes.None? then None
    else Some(CommandTree(c, environment.value, exitCodes.value))
  }

  function PortV1(p: Port): Option<Json> {
    var companions := SetOf(Map(StrItem, p.companionFiles));
    if companions.None? then None else Some(PortTree(p, companions.value))
  }

  predicate PortAccepted(p: Port) { PortV1(p).Some? }

  /** A port whose companions are accepted; the fallback is never looked at. */
  function PortItem(p: Port): Json {
    if PortAccepted(p) then PortV1(p).value else PortV0(p)
  }

  function PortsV1(ps: seq<Port>): Option<seq<Json>> {
    if exists i :: 0 <= i < |ps| && !PortAccepted(ps[i]) then None else SetOf(Map(PortItem, ps))
  }

  function ExecutionV1(e: Execution): Option<Json> {
    var writable, capabilities := SetOf(Map(StrItem, e.writablePaths)), SetOf(Map(StrItem, e.requiredCapabilities));
    if writable.None? || capabilities.None? then None
    else Some(ExecutionTree(e, writable.value, capabilities.value))
  }

  /** An absent message stays absent; a present one has to be accepted. */
  function PresentCommand(c: Option<Command>): Option<Option<Json>> {
    if c.None? then Some(None)
    else var t := CommandV1(c.value); if t.None? then None else Some(t)
  }

  function PresentExecution(e: Option<Execution>): Option<Option<Json>> {
    if e.None? then Some(None)
    else var t := ExecutionV1(e.value); if t.None? then None else Some(t)
  }

  function CanonicalV1(s: Spec): Option<Json> {
    var command, execution := PresentCommand(s.command), PresentExecution(s.execution);
    var inputs, outputs := PortsV1(s.inputs), PortsV1(s.outputs);
    var parameters, policies := SetOf(Map(ParameterTree, s.parameters)), SetOf(Map(PolicyTree, s.policies));
    if command.None? || execution.None? || inputs.None? || outputs.None? || parameters.None? || policies.None? then None
    else Some(SpecTree(command.value, execution.value, inputs.value, policies.value, outputs.value, parameters.value))
  }

  // ── what w2-set-v1 should identify: the declaration with the order of nine lists forgotten ──

  datatype CommandKey = CommandKey(
    executable: string,
    arguments: seq<string>,
    workingDirectory: string,
    environment: multiset<EnvVar>,
    successExitCodes: multiset<int>,
    timeoutPolicy: Option<Timeout>)

  datatype PortKey = PortKey(port: Port, companionFiles: multiset<string>)

  datatype ExecutionKey = ExecutionKey(
    writablePaths: multiset<string>,
    networkPolicy: string,
    requiresRoot: bool,
    requiredCapabilities: multiset<string>)

  datatype SpecKey = SpecKey(
    command: Option<CommandKey>,
    inputs: multiset<PortKey>,
    outputs: multiset<PortKey>,
    parameters: multiset<Parameter>,
    policies: multiset<Policy>,
    execution: Option<ExecutionKey>)

  function KeyOfCommand(c: Command): CommandKey {
    CommandKey(c.executable, c.arguments, c.workingDirectory, multiset(c.environment), multiset(c.successExitCodes),
               c.timeoutPolicy)
  }

  function KeyOfPort(p: Port): PortKey {
    PortKey(p.(companionFiles := []), multiset(p.companionFiles))
  }

  function KeyOfExecution(e: Execution): ExecutionKey {
    ExecutionKey(multiset(e.writablePaths), e.networkPolicy, e.requiresRoot, multiset(e.requiredCapabilities))
  }

  function KeyOf(s: Spec): SpecKey {
    SpecKey(if s.command.None? then None else Some(KeyOfCommand(s.command.value)),
            multiset(Map(KeyOfPort, s.inputs)), multiset(Map(KeyOfPort, s.outputs)),
            multiset(s.parameters), multiset(s.policies),
            if s.execution.None? then None else Some(KeyOfExecution(s.execution.value)))
  }

  // ── trees determine what they were built from ───────────────────────────────

  predicate Distinct(keys: seq<string>) { NoDuplicates(keys) }

  lemma {:induction false} KeepsKeys(keys: seq<string>, values: seq<Option<Json>>)
    requires |keys| == |values|
    ensures forall f :: f in Keep(keys, values) ==> f.key in keys
  {
    if keys != [] { KeepsKeys(keys[1..], values[1..]); }
  }

  lemma KeepHead(keys: seq<string>, a: seq<Option<Json>>)
    requires |keys| == |a| && |keys| > 0 && Distinct(keys)
    ensures var x, rest := Keep(keys, a), Keep(keys[1..], a[1..]);
            && (a[0].Some? <==> x != [] && x[0].key == keys[0])
            && (a[0].Some? ==> x[0].value == a[0].value && x[1..] == rest)
            && (a[0].None? ==> x == rest)
  {
    var x, rest := Keep(keys, a), Keep(keys[1..], a[1..]);
    KeepsKeys(keys[1..], a[1..]);
    if a[0].None? {
      assert x == [] + rest;
      if rest != [] { assert rest[0] in rest; }
    }
  }

  /** An object shows every optional field it was built from. */
  lemma {:induction false} KeepInjective(keys: seq<string>, a: seq<Option<Json>>, b: seq<Option<Json>>)
    requires |keys| == |a| == |b| && Distinct(keys) && Keep(keys, a) == Keep(keys, b)
    ensures a == b
    decreases |keys|
  {
    if keys != [] {
      KeepHead(keys, a);
      KeepHead(keys, b);
      KeepInjective(keys[1..], a[1..], b[1..]);
      assert a == [a[0]] + a[1..] && b == [b[0]] + b[1..];
    }
  }

  lemma KeysAreDistinct()
    ensures Distinct(ENV_KEYS) && Distinct(TIMEOUT_KEYS) && Distinct(COMMAND_KEYS) && Distinct(PORT_KEYS)
    ensures Distinct(PARAMETER_KEYS) && Distinct(POLICY_KEYS) && Distinct(EXECUTION_KEYS) && Distinct(SPEC_KEYS)
  {
  }

  lemma SameFields(keys: seq<string>, a: seq<Option<Json>>, b: seq<Option<Json>>)
    requires |keys| == |a| == |b| && Distinct(keys)
    ensures Obj(Keep(keys, a)) == Obj(Keep(keys, b)) <==> forall i :: 0 <= i < |a| ==> a[i] == b[i]
  {
    if Keep(keys, a) == Keep(keys, b) { KeepInjective(keys, a, b); }
    if forall i :: 0 <= i < |a| ==> a[i] == b[i] { assert a == b; }
  }

  lemma EnvTreeExact(x: EnvVar, y: EnvVar)
    ensures EnvTree(x) == EnvTree(y) <==> x == y
  {
    hide Keep;
    KeysAreDistinct();
    var a, b := [PutStr(x.name), PutStr(x.source)], [PutStr(y.name), PutStr(y.source)];
    SameFields(ENV_KEYS, a, b);
    assert a[0] == b[0] && a[1] == b[1] <==> x == y;
  }

  lemma TimeoutTreeExact(x: Timeout, y: Timeout)
    ensures TimeoutTree(x) == TimeoutTree(y) <==> x == y
  {
    hide Keep;
    KeysAreDistinct();
    var a, b := [PutInt(x.hardSeconds), PutInt(x.softSeconds)], [PutInt(y.hardSeconds), PutInt(y.softSeconds)];
    SameFields(TIMEOUT_KEYS, a, b);
    assert a[0] == b[0] && a[1] == b[1] <==> x == y;
  }

  lemma PolicyTreeExact(x: Policy, y: Policy)
    ensures PolicyTree(x) == PolicyTree(y) <==> x == y
  {
    hide Keep;
    KeysAreDistinct();
    var a, b := [PutStr(x.pathOrPattern), PutInt(x.kind)], [PutStr(y.pathOrPattern), PutInt(y.kind)];
    SameFields(POLICY_KEYS, a, b);
    assert a[0] == b[0] && a[1] == b[1] <==> x == y;
  }

  lemma ParameterTreeExact(x: Parameter, y: Parameter)
    ensures ParameterTree(x) == ParameterTree(y) <==> x == y
  {
    hide Keep;
    KeysAreDistinct();
    var a := [PutStr(x.allowedRange), PutStr(x.cliArgumentMapping), PutStr(x.defaultValue),
              PutStr(x.mutuallyExclusiveGroup), PutStr(x.name), PutBool(x.required), PutInt(x.kind)];
    var b := [PutStr(y.allowedRange), PutStr(y.cliArgumentMapping), PutStr(y.defaultValue),
              PutStr(y.mutuallyExclusiveGroup), PutStr(y.name), PutBool(y.required), PutInt(y.kind)];
    SameFields(PARAMETER_KEYS, a, b);
    assert a[0] == b[0] && a[1] == b[1] && a[2] == b[2] && a[3] == b[3] && a[4] == b[4] && a[5] == b[5] && a[6] == b[6]
      <==> x == y;
  }

  lemma PortTreeExact(x: Port, c: seq<Json>, y: Port, d: seq<Json>)
    ensures PortTree(x, c) == PortTree(y, d) <==> x.(companionFiles := []) == y.(companionFiles := []) && c == d
  {
    hide Keep;
    KeysAreDistinct();
    var a := [PutInt(x.cardinality), PutList(c), PutStr(x.completionCheck), PutStr(x.dataFormat), PutStr(x.name),
              PutStr(x.pathOrGlob), PutStr(x.pathPlacementRule), PutBool(x.required)];
    var b := [PutInt(y.cardinality), PutList(d), PutStr(y.completionCheck), PutStr(y.dataFormat), PutStr(y.name),
              PutStr(y.pathOrGlob), PutStr(y.pathPlacementRule), PutBool(y.required)];
    SameFields(PORT_KEYS, a, b);
    assert (a[0] == b[0] && a[1] == b[1] && a[2] == b[2] && a[3] == b[3] && a[4] == b[4] && a[5] == b[5] && a[6] == b[6]
            && a[7] == b[7]) <==> x.(companionFiles := []) == y.(companionFiles := []) && c == d;
  }

  lemma CommandTreeExact(x: Command, e: seq<Json>, c: seq<Json>, y: Command, f: seq<Json>, d: seq<Json>)
    ensures CommandTree(x, e, c) == CommandTree(y, f, d) <==>
            x.executable == y.executable && x.arguments == y.arguments && x.workingDirectory == y.workingDirectory
            && x.timeoutPolicy == y.timeoutPolicy && e == f && c == d
  {
    hide Keep, TimeoutTree;
    KeysAreDistinct();
    var a := [PutList(Map(StrItem, x.arguments)), PutList(e), PutStr(x.executable), PutList(c),
              PutTimeout(x.timeoutPolicy), PutStr(x.workingDirectory)];
    var b := [PutList(Map(StrItem, y.arguments)), PutList(f), PutStr(y.executable), PutList(d),
              PutTimeout(y.timeoutPolicy), PutStr(y.workingDirectory)];
    SameFields(COMMAND_KEYS, a, b);
    if x.timeoutPolicy.Some? && y.timeoutPolicy.Some? {
      TimeoutTreeExact(x.timeoutPolicy.value, y.timeoutPolicy.value);
    }
    MapInjective(StrItem, x.arguments, y.arguments);
    assert a[0] == b[0] && a[1] == b[1] && a[2] == b[2] && a[3] == b[3] && a[4] == b[4] && a[5] == b[5]
      <==> x.executable == y.executable && x.arguments == y.arguments && x.workingDirectory == y.workingDirectory
           && x.timeoutPolicy == y.timeoutPolicy && e == f && c == d;
  }

  lemma ExecutionTreeExact(x: Execution, w: seq<Json>, c: seq<Json>, y: Execution, v: seq<Json>, d: seq<Json>)
    ensures ExecutionTree(x, w, c) == ExecutionTree(y, v, d) <==>
            x.networkPolicy == y.networkPolicy && x.requiresRoot == y.requiresRoot && w == v && c == d
  {
    hide Keep;
    KeysAreDistinct();
    var a := [PutStr(x.networkPolicy), PutList(c), PutBool(x.requiresRoot), PutList(w)];
    var b := [PutStr(y.networkPolicy), PutList(d), PutBool(y.requiresRoot), PutList(v)];
    SameFields(EXECUTION_KEYS, a, b);
    assert a[0] == b[0] && a[1] == b[1] && a[2] == b[2] && a[3] == b[3]
      <==> x.networkPolicy == y.networkPolicy && x.requiresRoot == y.requiresRoot && w == v && c == d;
  }

  lemma SpecTreeExact(c: Option<Json>, e: Option<Json>, i: seq<Json>, p: seq<Json>, o: seq<Json>, q: seq<Json>,
                      c': Option<Json>, e': Option<Json>, i': seq<Json>, p': seq<Json>, o': seq<Json>, q': seq<Json>)
    ensures SpecTree(c, e, i, p, o, q) == SpecTree(c', e', i', p', o', q') <==>
            c == c' && e == e' && i == i' && p == p' && o == o' && q == q'
  {
    hide Keep;
    KeysAreDistinct();
    var a := [c, e, PutList(i), PutList(p), PutList(o), PutList(q)];
    var b := [c', e', PutList(i'), PutList(p'), PutList(o'), PutList(q')];
    SameFields(SPEC_KEYS, a, b);
    assert a[0] == b[0] && a[1] == b[1] && a[2] == b[2] && a[3] == b[3] && a[4] == b[4] && a[5] == b[5]
      <==> c == c' && e == e' && i == i' && p == p' && o == o' && q == q';
  }

  // ── lists seen through a builder ────────────────────────────────────────────

  lemma {:induction false} MapInjective<T(!new), U>(f: T -> U, a: seq<T>, b: seq<T>)
    requires forall x, y :: f(x) == f(y) ==> x == y
    ensures Map(f, a) == Map(f, b) <==> a == b
    decreases |a|
  {
    if a != [] && b != [] {
      MapInjective(f, a[1..], b[1..]);
      assert a == [a[0]] + a[1..] && b == [b[0]] + b[1..];
      assert Map(f, a)[1..] == Map(f, a[1..]) && Map(f, b)[1..] == Map(f, b[1..]);
    }
  }

  lemma MapSplit<T, U>(f: T -> U, p: seq<T>, c: T, q: seq<T>)
    ensures multiset(Map(f, p + [c] + q)) == multiset(Map(f, p + q)) + multiset{f(c)}
  {
    hide Map;
    var l, r := Map(f, p), Map(f, q);
    var s, t := p + [c] + q, p + q;
    assert Map(f, s) == l + [f(c)] + r by {
      assert forall i :: 0 <= i < |p| ==> s[i] == p[i];
      assert s[|p|] == c;
      assert forall i :: 0 <= i < |q| ==> s[|p| + 1 + i] == q[i];
    }
    assert Map(f, t) == l + r by {
      assert forall i :: 0 <= i < |p| ==> t[i] == p[i];
      assert forall i :: 0 <= i < |q| ==> t[|p| + i] == q[i];
    }
  }

  lemma WithoutAre<T>(s: seq<T>, j: nat)
    requires j < |s|
    ensures forall x :: x in Without(s, j) ==> x in s
    ensures j == 0 ==> Without(s, j) == s[1..]
  {
  }

  lemma RemoveOne<T, U>(f: T -> U, b: seq<T>, j: nat)
    requires j < |b|
    ensures multiset(Map(f, b)) == multiset(Map(f, Without(b, j))) + multiset{f(b[j])}
  {
    hide Map;
    Recombine(b, j);
    MapSplit(f, b[..j], b[j], b[j + 1..]);
  }

  /** If two views tell the same elements apart, equal collections in one view are equal in the other. */
  lemma {:induction false} MultisetsTransfer<T, U, V>(f: T -> U, g: T -> V, a: seq<T>, b: seq<T>)
    requires forall x, y :: x in a && y in b && f(x) == f(y) ==> g(x) == g(y)
    requires multiset(Map(f, a)) == multiset(Map(f, b))
    ensures multiset(Map(g, a)) == multiset(Map(g, b))
    decreases |a|
  {
    hide Map, Without;
    if a == [] {
      assert |multiset(Map(f, b))| == |Map(f, b)|;
    } else {
      var j := MatchOf(f, a[0], a, b);
      Matched(f, a, b, j);
      WithoutAre(a, 0);
      WithoutAre(b, j);
      MultisetsTransfer(f, g, Without(a, 0), Without(b, j));
      RemoveOne(g, b, j);
      RemoveOne(g, a, 0);
      assert g(a[0]) == g(b[j]);
    }
  }

  lemma Matched<T, U>(f: T -> U, a: seq<T>, b: seq<T>, j: nat)
    requires a != [] && j < |b| && f(b[j]) == f(a[0]) && multiset(Map(f, a)) == multiset(Map(f, b))
    ensures multiset(Map(f, Without(a, 0))) == multiset(Map(f, Without(b, j)))
  {
    hide Map, Without;
    RemoveOne(f, b, j);
    RemoveOne(f, a, 0);
    CancelOne(multiset(Map(f, Without(a, 0))), multiset(Map(f, Without(b, j))), f(a[0]));
  }

  lemma MatchOf<T, U>(f: T -> U, x: T, a: seq<T>, b: seq<T>) returns (j: nat)
    requires x in a && multiset(Map(f, a)) == multiset(Map(f, b))
    ensures j < |b| && f(b[j]) == f(x)
  {
    var i :| 0 <= i < |a| && a[i] == x;
    assert Map(f, a)[i] in multiset(Map(f, b));
    j :| 0 <= j < |b| && Map(f, b)[j] == f(x);
  }

  lemma Transfer<T, U, V>(f: T -> U, g: T -> V, a: seq<T>, b: seq<T>)
    requires forall x, y :: x in a && y in b ==> (f(x) == f(y) <==> g(x) == g(y))
    ensures multiset(Map(f, a)) == multiset(Map(f, b)) <==> multiset(Map(g, a)) == multiset(Map(g, b))
  {
    if multiset(Map(f, a)) == multiset(Map(f, b)) { MultisetsTransfer(f, g, a, b); }
    if multiset(Map(g, a)) == multiset(Map(g, b)) { MultisetsTransfer(g, f, a, b); }
  }

  function Same<T>(x: T): T { x }

  lemma {:induction false} MapSame<T>(s: seq<T>)
    ensures Map((x: T) => Same(x), s) == s
  {
  }

  /** Sorting a list of distinct trees forgets exactly the order of what they were built from. */
  lemma SetsForgetOrder<T(!new)>(f: T -> Json, a: seq<T>, b: seq<T>)
    requires forall x, y :: f(x) == f(y) ==> x == y
    requires SetOf(Map(f, a)).Some? && SetOf(Map(f, b)).Some?
    ensures SetOf(Map(f, a)) == SetOf(Map(f, b)) <==> multiset(a) == multiset(b)
  {
    hide SetOf, Map;
    SetOfEqual(Map(f, a), Map(f, b));
    MapSame(a);
    MapSame(b);
    Transfer(f, (x: T) => Same(x), a, b);
  }

  // ── w2-set-v1 identifies exactly up to order ─────────────────────────────────

  lemma CommandExact(x: Command, y: Command)
    requires CommandV1(x).Some? && CommandV1(y).Some?
    ensures CommandV1(x) == CommandV1(y) <==> KeyOfCommand(x) == KeyOfCommand(y)
  {
    hide SetOf, Map, CommandTree, EnvTree;
    forall p, q ensures EnvTree(p) == EnvTree(q) ==> p == q { EnvTreeExact(p, q); }
    SetsForgetOrder(EnvTree, x.environment, y.environment);
    SetsForgetOrder(NumItem, x.successExitCodes, y.successExitCodes);
    CommandTreeExact(x, SetOf(Map(EnvTree, x.environment)).value, SetOf(Map(NumItem, x.successExitCodes)).value,
                     y, SetOf(Map(EnvTree, y.environment)).value, SetOf(Map(NumItem, y.successExitCodes)).value);
  }

  lemma PortExact(x: Port, y: Port)
    requires PortAccepted(x) && PortAccepted(y)
    ensures PortItem(x) == PortItem(y) <==> KeyOfPort(x) == KeyOfPort(y)
  {
    hide SetOf, Map, PortTree;
    SetsForgetOrder(StrItem, x.companionFiles, y.companionFiles);
    PortTreeExact(x, SetOf(Map(StrItem, x.companionFiles)).value, y, SetOf(Map(StrItem, y.companionFiles)).value);
  }

  lemma PortsExact(a: seq<Port>, b: seq<Port>)
    requires PortsV1(a).Some? && PortsV1(b).Some?
    ensures PortsV1(a) == PortsV1(b) <==> multiset(Map(KeyOfPort, a)) == multiset(Map(KeyOfPort, b))
  {
    hide SetOf, Map, PortV1, PortItem;
    SetOfEqual(Map(PortItem, a), Map(PortItem, b));
    forall x, y | x in a && y in b
      ensures PortItem(x) == PortItem(y) <==> KeyOfPort(x) == KeyOfPort(y)
    {
      PortExact(x, y);
    }
    Transfer(PortItem, KeyOfPort, a, b);
  }

  lemma ExecutionExact(x: Execution, y: Execution)
    requires ExecutionV1(x).Some? && ExecutionV1(y).Some?
    ensures ExecutionV1(x) == ExecutionV1(y) <==> KeyOfExecution(x) == KeyOfExecution(y)
  {
    hide SetOf, Map, ExecutionTree;
    SetsForgetOrder(StrItem, x.writablePaths, y.writablePaths);
    SetsForgetOrder(StrItem, x.requiredCapabilities, y.requiredCapabilities);
    ExecutionTreeExact(
      x, SetOf(Map(StrItem, x.writablePaths)).value, SetOf(Map(StrItem, x.requiredCapabilities)).value,
      y, SetOf(Map(StrItem, y.writablePaths)).value, SetOf(Map(StrItem, y.requiredCapabilities)).value);
  }

  lemma ParametersExact(a: seq<Parameter>, b: seq<Parameter>)
    requires SetOf(Map(ParameterTree, a)).Some? && SetOf(Map(ParameterTree, b)).Some?
    ensures SetOf(Map(ParameterTree, a)) == SetOf(Map(ParameterTree, b)) <==> multiset(a) == multiset(b)
  {
    hide SetOf, Map, ParameterTree;
    forall p, q ensures ParameterTree(p) == ParameterTree(q) ==> p == q { ParameterTreeExact(p, q); }
    SetsForgetOrder(ParameterTree, a, b);
  }

  lemma PoliciesExact(a: seq<Policy>, b: seq<Policy>)
    requires SetOf(Map(PolicyTree, a)).Some? && SetOf(Map(PolicyTree, b)).Some?
    ensures SetOf(Map(PolicyTree, a)) == SetOf(Map(PolicyTree, b)) <==> multiset(a) == multiset(b)
  {
    hide SetOf, Map, PolicyTree;
    forall p, q ensures PolicyTree(p) == PolicyTree(q) ==> p == q { PolicyTreeExact(p, q); }
    SetsForgetOrder(PolicyTree, a, b);
  }

  lemma PresentCommandExact(x: Option<Command>, y: Option<Command>)
    requires PresentCommand(x).Some? && PresentCommand(y).Some?
    ensures PresentCommand(x) == PresentCommand(y) <==>
            (if x.None? then None else Some(KeyOfCommand(x.value)))
            == (if y.None? then None else Some(KeyOfCommand(y.value)))
  {
    hide CommandV1, KeyOfCommand;
    if x.Some? && y.Some? { CommandExact(x.value, y.value); }
  }

  lemma PresentExecutionExact(x: Option<Execution>, y: Option<Execution>)
    requires PresentExecution(x).Some? && PresentExecution(y).Some?
    ensures PresentExecution(x) == PresentExecution(y) <==>
            (if x.None? then None else Some(KeyOfExecution(x.value)))
            == (if y.None? then None else Some(KeyOfExecution(y.value)))
  {
    hide ExecutionV1, KeyOfExecution;
    if x.Some? && y.Some? { ExecutionExact(x.value, y.value); }
  }

  /**
   Two accepted declarations have the same canonical tree exactly when they differ at most in the
   order of the nine set-like lists, companion files inside reordered ports included. The order of
   arguments counts, and an absent message is not an empty one.
   */
  lemma CanonicalV1Exact(s: Spec, t: Spec)
    requires CanonicalV1(s).Some? && CanonicalV1(t).Some?
    ensures CanonicalV1(s) == CanonicalV1(t) <==> KeyOf(s) == KeyOf(t)
  {
    hide SetOf, Map, PresentCommand, PresentExecution, PortsV1, SpecTree, KeyOfCommand, KeyOfExecution;
    PresentCommandExact(s.command, t.command);
    PresentExecutionExact(s.execution, t.execution);
    PortsExact(s.inputs, t.inputs);
    PortsExact(s.outputs, t.outputs);
    ParametersExact(s.parameters, t.parameters);
    PoliciesExact(s.policies, t.policies);
    SpecTreeExact(
      PresentCommand(s.command).value, PresentExecution(s.execution).value, PortsV1(s.inputs).value,
      SetOf(Map(PolicyTree, s.policies)).value, PortsV1(s.outputs).value,
      SetOf(Map(ParameterTree, s.parameters)).value,
      PresentCommand(t.command).value, PresentExecution(t.execution).value, PortsV1(t.inputs).value,
      SetOf(Map(PolicyTree, t.policies)).value, PortsV1(t.outputs).value,
      SetOf(Map(ParameterTree, t.parameters)).value);
  }

  // ── what w2-set-v1 refuses ──────────────────────────────────────────────────

  /** Some set-like list repeats an element; ports are compared up to the order of their companions. */
  ghost predicate Repeats(s: Spec) {
    || (s.command.Some? &&
          !(NoDuplicates(s.command.value.environment) && NoDuplicates(s.command.value.successExitCodes)))
    || PortsRepeat(s.inputs) || PortsRepeat(s.outputs)
    || !NoDuplicates(s.parameters) || !NoDuplicates(s.policies)
    || (s.execution.Some? &&
          !(NoDuplicates(s.execution.value.writablePaths) && NoDuplicates(s.execution.value.requiredCapabilities)))
  }

  ghost predicate PortsRepeat(ps: seq<Port>) {
    || (exists i :: 0 <= i < |ps| && !NoDuplicates(ps[i].companionFiles))
    || (exists i, j :: 0 <= i < j < |ps| && KeyOfPort(ps[i]) == KeyOfPort(ps[j]))
  }

  lemma SetOfMapSpec<T(!new)>(f: T -> Json, a: seq<T>)
    requires forall x, y :: f(x) == f(y) ==> x == y
    ensures SetOf(Map(f, a)).Some? <==> NoDuplicates(a)
  {
    hide SetOf, Map;
    SetOfSpec(Map(f, a));
    if NoDuplicates(Map(f, a)) {
      forall i, j | 0 <= i < j < |a| ensures a[i] != a[j] { assert Map(f, a)[i] != Map(f, a)[j]; }
    }
  }

  lemma PortAcceptedExact(p: Port)
    ensures PortAccepted(p) <==> NoDuplicates(p.companionFiles)
  {
    hide SetOf, Map, PortTree;
    SetOfMapSpec(StrItem, p.companionFiles);
  }

  lemma PortsRefusedExact(ps: seq<Port>)
    ensures PortsV1(ps).None? <==> PortsRepeat(ps)
  {
    hide SetOf, Map, PortV1, PortItem, KeyOfPort, PortAccepted, NoDuplicates;
    forall i | 0 <= i < |ps| ensures PortAccepted(ps[i]) <==> NoDuplicates(ps[i].companionFiles) {
      PortAcceptedExact(ps[i]);
    }
    if forall i :: 0 <= i < |ps| ==> PortAccepted(ps[i]) {
      PortItemsDistinct(ps);
      SetOfSpec(Map(PortItem, ps));
    }
  }

  lemma PortItemsDistinct(ps: seq<Port>)
    requires forall i :: 0 <= i < |ps| ==> PortAccepted(ps[i])
    ensures NoDuplicates(Map(PortItem, ps)) <==>
            !(exists i, j :: 0 <= i < j < |ps| && KeyOfPort(ps[i]) == KeyOfPort(ps[j]))
  {
    hide Map, PortItem, KeyOfPort, PortAccepted;
    var items := Map(PortItem, ps);
    forall i, j | 0 <= i < j < |ps| ensures items[i] == items[j] <==> KeyOfPort(ps[i]) == KeyOfPort(ps[j]) {
      PortExact(ps[i], ps[j]);
    }
  }

  /** A declaration is refused exactly when one of its set-like lists repeats an element. */
  lemma RefusedExact(s: Spec)
    ensures CanonicalV1(s).None? <==> Repeats(s)
  {
    hide SetOf, Map, PortsV1, SpecTree, CommandTree, ExecutionTree;
    hide NoDuplicates, PortsRepeat, EnvTree, ParameterTree, PolicyTree;
    forall p, q ensures EnvTree(p) == EnvTree(q) ==> p == q { EnvTreeExact(p, q); }
    forall p, q ensures ParameterTree(p) == ParameterTree(q) ==> p == q { ParameterTreeExact(p, q); }
    forall p, q ensures PolicyTree(p) == PolicyTree(q) ==> p == q { PolicyTreeExact(p, q); }
    if s.command.Some? {
      SetOfMapSpec(EnvTree, s.command.value.environment);
      SetOfMapSpec(NumItem, s.command.value.successExitCodes);
    }
    if s.execution.Some? {
      SetOfMapSpec(StrItem, s.execution.value.writablePaths);
      SetOfMapSpec(StrItem, s.execution.value.requiredCapabilities);
    }
    PortsRefusedExact(s.inputs);
    PortsRefusedExact(s.outputs);
    SetOfMapSpec(ParameterTree, s.parameters);
    SetOfMapSpec(PolicyTree, s.policies);
  }

  // ── legacy-order-v0 identifies exactly what was written ──────────────────────

  lemma PortV0Exact(x: Port, y: Port)
    ensures PortV0(x) == PortV0(y) <==> x == y
  {
    hide Map, PortTree;
    MapInjective(StrItem, x.companionFiles, y.companionFiles);
    PortTreeExact(x, Map(StrItem, x.companionFiles), y, Map(StrItem, y.companionFiles));
  }

  lemma CommandV0Exact(x: Option<Command>, y: Option<Command>)
    ensures CommandV0(x) == CommandV0(y) <==> x == y
  {
    hide Map, CommandTree, EnvTree;
    if x.Some? && y.Some? {
      var c, d := x.value, y.value;
      forall p, q ensures EnvTree(p) == EnvTree(q) ==> p == q { EnvTreeExact(p, q); }
      MapInjective(EnvTree, c.environment, d.environment);
      MapInjective(NumItem, c.successExitCodes, d.successExitCodes);
      CommandTreeExact(c, Map(EnvTree, c.environment), Map(NumItem, c.successExitCodes),
                       d, Map(EnvTree, d.environment), Map(NumItem, d.successExitCodes));
    }
  }

  lemma ExecutionV0Exact(x: Option<Execution>, y: Option<Execution>)
    ensures ExecutionV0(x) == ExecutionV0(y) <==> x == y
  {
    hide Map, ExecutionTree;
    if x.Some? && y.Some? {
      var e, f := x.value, y.value;
      MapInjective(StrItem, e.writablePaths, f.writablePaths);
      MapInjective(StrItem, e.requiredCapabilities, f.requiredCapabilities);
      ExecutionTreeExact(e, Map(StrItem, e.writablePaths), Map(StrItem, e.requiredCapabilities),
                         f, Map(StrItem, f.writablePaths), Map(StrItem, f.requiredCapabilities));
    }
  }

  /** The replay-only canonicalizer tells any two different declarations apart, order included. */
  lemma CanonicalV0Exact(s: Spec, t: Spec)
    ensures CanonicalV0(s) == CanonicalV0(t) <==> s == t
  {
    hide Map, SpecTree, CommandV0, ExecutionV0, PortV0, ParameterTree, PolicyTree;
    CommandV0Exact(s.command, t.command);
    ExecutionV0Exact(s.execution, t.execution);
    forall p, q ensures PortV0(p) == PortV0(q) ==> p == q { PortV0Exact(p, q); }
    forall p, q ensures ParameterTree(p) == ParameterTree(q) ==> p == q { ParameterTreeExact(p, q); }
    forall p, q ensures PolicyTree(p) == PolicyTree(q) ==> p == q { PolicyTreeExact(p, q); }
    MapInjective(PortV0, s.inputs, t.inputs);
    MapInjective(PortV0, s.outputs, t.outputs);
    MapInjective(ParameterTree, s.parameters, t.parameters);
    MapInjective(PolicyTree, s.policies, t.policies);
    SpecTreeExact(
      CommandV0(s.command), ExecutionV0(s.execution), Map(PortV0, s.inputs), Map(PolicyTree, s.policies),
      Map(PortV0, s.outputs), Map(ParameterTree, s.parameters),
      CommandV0(t.command), ExecutionV0(t.execution), Map(PortV0, t.inputs), Map(PolicyTree, t.policies),
      Map(PortV0, t.outputs), Map(ParameterTree, t.parameters));
  }

  // ── the two digests ─────────────────────────────────────────────────────────

  ghost predicate Injective(sha: string -> string) {
    forall x, y :: sha(x) == sha(y) ==> x == y
  }

  function ToolFunctionDigest(sha: string -> string, base: string, spec: Json): string {
    sha(Encode(Obj([Field("base_tool_spec_digest", Str(base)), Field("spec", spec)])))
  }

  function CasHash(sha: string -> string, digest: string, image: string): string {
    sha(Encode(Obj([Field("function_image_digest", Str(image)), Field("tool_function_digest", Str(digest))])))
  }

  lemma DigestsExact(sha: string -> string, base: string, s: Json, base': string, t: Json)
    requires Injective(sha)
    ensures ToolFunctionDigest(sha, base, s) == ToolFunctionDigest(sha, base', t) <==> base == base' && s == t
  {
    hide Encode;
    var a := Obj([Field("base_tool_spec_digest", Str(base)), Field("spec", s)]);
    var b := Obj([Field("base_tool_spec_digest", Str(base')), Field("spec", t)]);
    if ToolFunctionDigest(sha, base, s) == ToolFunctionDigest(sha, base', t) {
      EncodeInjective(a, b);
      assert a.fields[0] == b.fields[0] && a.fields[1] == b.fields[1];
    }
  }

  lemma CasHashesExact(sha: string -> string, d: string, image: string, d': string, image': string)
    requires Injective(sha)
    ensures CasHash(sha, d, image) == CasHash(sha, d', image') <==> d == d' && image == image'
  {
    hide Encode;
    var a := Obj([Field("function_image_digest", Str(image)), Field("tool_function_digest", Str(d))]);
    var b := Obj([Field("function_image_digest", Str(image')), Field("tool_function_digest", Str(d'))]);
    if CasHash(sha, d, image) == CasHash(sha, d', image') {
      EncodeInjective(a, b);
      assert a.fields[0] == b.fields[0] && a.fields[1] == b.fields[1];
    }
  }

  /**
   Runnable identity is exact: for any collision-free hash, two accepted registrations get one casHash
   exactly when they name the same base, the same image, and the same declaration up to the order of
   its set-like lists.
   */
  lemma IdentityExact(sha: string -> string, base: string, image: string, s: Spec,
                      base': string, image': string, t: Spec)
    requires Injective(sha) && CanonicalV1(s).Some? && CanonicalV1(t).Some?
    ensures CasHash(sha, ToolFunctionDigest(sha, base, CanonicalV1(s).value), image)
            == CasHash(sha, ToolFunctionDigest(sha, base', CanonicalV1(t).value), image')
            <==> base == base' && image == image' && KeyOf(s) == KeyOf(t)
  {
    hide CanonicalV1, KeyOf, ToolFunctionDigest, CasHash;
    CanonicalV1Exact(s, t);
    DigestsExact(sha, base, CanonicalV1(s).value, base', CanonicalV1(t).value);
    CasHashesExact(sha, ToolFunctionDigest(sha, base, CanonicalV1(s).value), image,
                   ToolFunctionDigest(sha, base', CanonicalV1(t).value), image');
  }
}
