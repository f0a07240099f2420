/**
 What the canonical trees and their bytes say: every field under its own key and nothing else, keys in ascending
 order, and JSON text (sections 4 to 7 of RFC 8259) without white space that denotes the tree.
 */
module CanonicalForm {
  import opened ByteOrder
  import opened Wrappers
  import opened CanonicalJson
  import opened CanonicalSpec

  // ── reading a tree by its keys ──────────────────────────────────────────────

  function GetIn(fields: seq<Field>, key: string): Option<Json> {
    if fields == [] then None
    else if fields[0].key == key then Some(fields[0].value)
    else GetIn(fields[1..], key)
  }

  /** What an object has under a key. */
  function Get(j: Json, key: string): Option<Json> {
    if j.Obj? then GetIn(j.fields, key) else None
  }

  /** A text field is there exactly when it is not empty, and likewise for the others. */
  predicate ShowsText(j: Json, key: string, text: string) {
    Get(j, key) == if text == "" then None else Some(Str(text))
  }

  predicate ShowsNumber(j: Json, key: string, n: int) {
    Get(j, key) == if n == 0 then None else Some(Num(n))
  }

  predicate ShowsFlag(j: Json, key: string, flag: bool) {
    Get(j, key) == if flag then Some(Bool(true)) else None
  }

  predicate ShowsList(j: Json, key: string, items: seq<Json>) {
    Get(j, key) == if items == [] then None else Some(Arr(items))
  }

  ghost predicate KeysAscend(fields: seq<Field>) {
    forall i, k :: 0 <= i < k < |fields| ==> Less(fields[i].key, fields[k].key)
  }

  /** An object with keys among these, in ascending order. */
  ghost predicate Keyed(j: Json, keys: set<string>) {
    j.Obj? && KeysAscend(j.fields) && forall f :: f in j.fields ==> f.key in keys
  }

  ghost predicate AscendingKeys(keys: seq<string>) {
    forall i, k :: 0 <= i < k < |keys| ==> Less(keys[i], keys[k])
  }

  lemma {:induction false} KeepGets(keys: seq<string>, values: seq<Option<Json>>, i: nat)
    requires |keys| == |values| && AscendingKeys(keys) && i < |keys|
    ensures GetIn(Keep(keys, values), keys[i]) == values[i]
    decreases |keys|
  {
    hide Less;
    LessTotal(keys[0], keys[i]);
    if i == 0 {
      KeepsKeys(keys[1..], values[1..]);
      var rest := Keep(keys[1..], values[1..]);
      assert [] + rest == rest && [keys[0]] + keys[1..] == keys;
      if values[0].None? { GetAbsent(keys[1..], values[1..], keys[0]); }
    } else {
      KeepGets(keys[1..], values[1..], i - 1);
      assert [] + Keep(keys[1..], values[1..]) == Keep(keys[1..], values[1..]);
      GetBehind(keys, values, keys[i]);
    }
  }

  lemma GetBehind(keys: seq<string>, values: seq<Option<Json>>, key: string)
    requires |keys| == |values| > 0 && keys[0] != key
    ensures GetIn(Keep(keys, values), key) == GetIn(Keep(keys[1..], values[1..]), key)
  {
    var rest := Keep(keys[1..], values[1..]);
    assert [] + rest == rest;
    if values[0].Some? { assert ([Field(keys[0], values[0].value)] + rest)[1..] == rest; }
  }

  lemma {:induction false} GetAbsent(keys: seq<string>, values: seq<Option<Json>>, key: string)
    requires |keys| == |values| && (key !in keys || (AscendingKeys([key] + keys)))
    ensures GetIn(Keep(keys, values), key) == None
    decreases |keys|
  {
    hide Less;
    if keys != [] {
      if key in keys {
        var i :| 0 <= i < |keys| && keys[i] == key;
        assert ([key] + keys)[0] == key && ([key] + keys)[i + 1] == keys[i];
        LessTotal(key, key);
      } else {
        GetBehind(keys, values, key);
        GetAbsent(keys[1..], values[1..], key);
      }
    }
  }

  lemma {:induction false} KeepAscends(keys: seq<string>, values: seq<Option<Json>>)
    requires |keys| == |values| && AscendingKeys(keys)
    ensures KeysAscend(Keep(keys, values))
    ensures forall f :: f in Keep(keys, values) ==> f.key in keys
    decreases |keys|
  {
    hide Less;
    KeepsKeys(keys, values);
    if keys != [] {
      KeepAscends(keys[1..], values[1..]);
      var rest := Keep(keys[1..], values[1..]);
      assert [] + rest == rest;
      forall f | f in rest ensures Less(keys[0], f.key) {
        var i :| 0 <= i < |keys[1..]| && keys[1..][i] == f.key;
        assert keys[i + 1] == f.key;
      }
      if values[0].Some? { PrependAscending(Field(keys[0], values[0].value), rest); }
    }
  }

  lemma PrependAscending(f: Field, rest: seq<Field>)
    requires KeysAscend(rest) && forall g :: g in rest ==> Less(f.key, g.key)
    ensures KeysAscend([f] + rest)
  {
    hide Less;
    var all := [f] + rest;
    forall i, k | 0 <= i < k < |all| ensures Less(all[i].key, all[k].key) {
      assert all[k] == rest[k - 1] && rest[k - 1] in rest;
      if i > 0 { assert all[i] == rest[i - 1]; }
    }
  }

  /** The i-th optional value of an object built by Keep, under its key; nothing under any other. */
  lemma Kept(keys: seq<string>, values: seq<Option<Json>>)
    requires |keys| == |values| && AscendingKeys(keys)
    ensures forall i :: 0 <= i < |keys| ==> Get(Obj(Keep(keys, values)), keys[i]) == values[i]
    ensures KeysAscend(Keep(keys, values)) && forall f :: f in Keep(keys, values) ==> f.key in keys
  {
    hide Keep;
    KeepAscends(keys, values);
    forall i | 0 <= i < |keys| ensures GetIn(Keep(keys, values), keys[i]) == values[i] { KeepGets(keys, values, i); }
  }

  lemma {:induction false} NeighboursAscend(keys: seq<string>)
    requires forall i :: 0 <= i < |keys| - 1 ==> Less(keys[i], keys[i + 1])
    ensures AscendingKeys(keys)
    decreases |keys|
  {
    hide Less;
    if |keys| > 1 {
      var init := keys[..|keys| - 1];
      NeighboursAscend(init);
      forall i, k | 0 <= i < k < |keys| ensures Less(keys[i], keys[k]) {
        if k == |keys| - 1 {
          if i < k - 1 {
            assert Less(init[i], init[k - 1]);
            LessTransitive(keys[i], keys[k - 1], keys[k]);
          }
        } else {
          assert Less(init[i], init[k]);
        }
      }
    }
  }

  lemma EnvKeysAscend()
    ensures AscendingKeys(ENV_KEYS)
  {
    hide Less, AscendingKeys;
    LessAt(ENV_KEYS[0], ENV_KEYS[1], 0);
    NeighboursAscend(ENV_KEYS);
  }

  lemma TimeoutKeysAscend()
    ensures AscendingKeys(TIMEOUT_KEYS)
  {
    hide Less, AscendingKeys;
    LessAt(TIMEOUT_KEYS[0], TIMEOUT_KEYS[1], 0);
    NeighboursAscend(TIMEOUT_KEYS);
  }

  lemma CommandKeysAscend()
    ensures AscendingKeys(COMMAND_KEYS)
  {
    hide Less, AscendingKeys;
    LessAt(COMMAND_KEYS[0], COMMAND_KEYS[1], 0);
    LessAt(COMMAND_KEYS[1], COMMAND_KEYS[2], 1);
    LessAt(COMMAND_KEYS[2], COMMAND_KEYS[3], 0);
    LessAt(COMMAND_KEYS[3], COMMAND_KEYS[4], 0);
    LessAt(COMMAND_KEYS[4], COMMAND_KEYS[5], 0);
    NeighboursAscend(COMMAND_KEYS);
  }

  lemma PortKeysAscend()
    ensures AscendingKeys(PORT_KEYS)
  {
    hide Less, AscendingKeys;
    LessAt(PORT_KEYS[0], PORT_KEYS[1], 1);
    LessAt(PORT_KEYS[1], PORT_KEYS[2], 4);
    LessAt(PORT_KEYS[2], PORT_KEYS[3], 0);
    LessAt(PORT_KEYS[3], PORT_KEYS[4], 0);
    LessAt(PORT_KEYS[4], PORT_KEYS[5], 0);
    LessAt(PORT_KEYS[5], PORT_KEYS[6], 5);
    LessAt(PORT_KEYS[6], PORT_KEYS[7], 0);
    NeighboursAscend(PORT_KEYS);
  }

  lemma ParameterKeysAscend()
    ensures AscendingKeys(PARAMETER_KEYS)
  {
    hide Less, AscendingKeys;
    LessAt(PARAMETER_KEYS[0], PARAMETER_KEYS[1], 0);
    LessAt(PARAMETER_KEYS[1], PARAMETER_KEYS[2], 0);
    LessAt(PARAMETER_KEYS[2], PARAMETER_KEYS[3], 0);
    LessAt(PARAMETER_KEYS[3], PARAMETER_KEYS[4], 0);
    LessAt(PARAMETER_KEYS[4], PARAMETER_KEYS[5], 0);
    LessAt(PARAMETER_KEYS[5], PARAMETER_KEYS[6], 0);
    NeighboursAscend(PARAMETER_KEYS);
  }

  lemma PolicyKeysAscend()
    ensures AscendingKeys(POLICY_KEYS)
  {
    hide Less, AscendingKeys;
    LessAt(POLICY_KEYS[0], POLICY_KEYS[1], 1);
    NeighboursAscend(POLICY_KEYS);
  }

  lemma ExecutionKeysAscend()
    ensures AscendingKeys(EXECUTION_KEYS)
  {
    hide Less, AscendingKeys;
    LessAt(EXECUTION_KEYS[0], EXECUTION_KEYS[1], 0);
    LessAt(EXECUTION_KEYS[1], EXECUTION_KEYS[2], 7);
    LessAt(EXECUTION_KEYS[2], EXECUTION_KEYS[3], 0);
    NeighboursAscend(EXECUTION_KEYS);
  }

  lemma SpecKeysAscend()
    ensures AscendingKeys(SPEC_KEYS)
  {
    hide Less, AscendingKeys;
    LessAt(SPEC_KEYS[0], SPEC_KEYS[1], 0);
    LessAt(SPEC_KEYS[1], SPEC_KEYS[2], 0);
    LessAt(SPEC_KEYS[2], SPEC_KEYS[3], 2);
    LessAt(SPEC_KEYS[3], SPEC_KEYS[4], 0);
    LessAt(SPEC_KEYS[4], SPEC_KEYS[5], 0);
    NeighboursAscend(SPEC_KEYS);
  }

  // ── what each message shows ─────────────────────────────────────────────────

  lemma EnvSays(e: EnvVar)
    ensures var j := EnvTree(e);
            Keyed(j, {"name", "source"}) && ShowsText(j, "name", e.name) && ShowsText(j, "source", e.source)
  {
    hide Keep;
    EnvKeysAscend();
    var values := [PutStr(e.name), PutStr(e.source)];
    Kept(ENV_KEYS, values);
    assert Get(EnvTree(e), ENV_KEYS[0]) == values[0] && Get(EnvTree(e), ENV_KEYS[1]) == values[1];
  }

  lemma TimeoutSays(t: Timeout)
    ensures var j := TimeoutTree(t);
            && Keyed(j, {"soft_seconds", "hard_seconds"})
            && ShowsNumber(j, "soft_seconds", t.softSeconds) && ShowsNumber(j, "hard_seconds", t.hardSeconds)
  {
    hide Keep;
    TimeoutKeysAscend();
    var values := [PutInt(t.hardSeconds), PutInt(t.softSeconds)];
    Kept(TIMEOUT_KEYS, values);
    assert Get(TimeoutTree(t), TIMEOUT_KEYS[0]) == values[0] && Get(TimeoutTree(t), TIMEOUT_KEYS[1]) == values[1];
  }

  /** A present but empty timeout policy is shown; an absent one is not. */
  lemma CommandSays(c: Command, environment: seq<Json>, exitCodes: seq<Json>)
    ensures var j := CommandTree(c, environment, exitCodes);
            && Keyed(j, {"executable", "arguments", "working_directory", "environment", "success_exit_codes",
                         "timeout_policy"})
            && ShowsText(j, "executable", c.executable) && ShowsText(j, "working_directory", c.workingDirectory)
            && ShowsList(j, "arguments", Texts(c.arguments)) && ShowsList(j, "environment", environment)
            && ShowsList(j, "success_exit_codes", exitCodes)
            && Get(j, "timeout_policy")
               == match c.timeoutPolicy case None => None case Some(t) => Some(TimeoutTree(t))
  {
    hide Keep, TimeoutTree;
    CommandKeysAscend();
    TextsAre(c.arguments);
    var values := [PutList(Map(StrItem, c.arguments)), PutList(environment), PutStr(c.executable), PutList(exitCodes),
                   PutTimeout(c.timeoutPolicy), PutStr(c.workingDirectory)];
    Kept(COMMAND_KEYS, values);
    var j := CommandTree(c, environment, exitCodes);
    assert Get(j, COMMAND_KEYS[0]) == values[0] && Get(j, COMMAND_KEYS[1]) == values[1];
    assert Get(j, COMMAND_KEYS[2]) == values[2] && Get(j, COMMAND_KEYS[3]) == values[3];
    assert Get(j, COMMAND_KEYS[4]) == values[4] && Get(j, COMMAND_KEYS[5]) == values[5];
  }

  lemma PortSays(p: Port, companions: seq<Json>)
    ensures var j := PortTree(p, companions);
            && Keyed(j, {"name", "data_format", "cardinality", "required", "path_or_glob", "path_placement_rule",
                         "companion_files", "completion_check"})
            && ShowsText(j, "name", p.name) && ShowsText(j, "data_format", p.dataFormat)
            && ShowsNumber(j, "cardinality", p.cardinality) && ShowsFlag(j, "required", p.required)
            && ShowsText(j, "path_or_glob", p.pathOrGlob)
            && ShowsText(j, "path_placement_rule", p.pathPlacementRule)
            && ShowsList(j, "companion_files", companions) && ShowsText(j, "completion_check", p.completionCheck)
  {
    hide Keep;
    PortKeysAscend();
    var values := [PutInt(p.cardinality), PutList(companions), PutStr(p.completionCheck), PutStr(p.dataFormat),
                   PutStr(p.name), PutStr(p.pathOrGlob), PutStr(p.pathPlacementRule), PutBool(p.required)];
    Kept(PORT_KEYS, values);
    var j := PortTree(p, companions);
    assert Get(j, PORT_KEYS[0]) == values[0] && Get(j, PORT_KEYS[1]) == values[1];
    assert Get(j, PORT_KEYS[2]) == values[2] && Get(j, PORT_KEYS[3]) == values[3];
    assert Get(j, PORT_KEYS[4]) == values[4] && Get(j, PORT_KEYS[5]) == values[5];
    assert Get(j, PORT_KEYS[6]) == values[6] && Get(j, PORT_KEYS[7]) == values[7];
  }

  lemma ParameterSays(p: Parameter)
    ensures var j := ParameterTree(p);
            && Keyed(j, {"name", "type", "default_value", "allowed_range", "required", "cli_argument_mapping",
                         "mutually_exclusive_group"})
            && ShowsText(j, "name", p.name) && ShowsNumber(j, "type", p.kind)
            && ShowsText(j, "default_value", p.defaultValue) && ShowsText(j, "allowed_range", p.allowedRange)
            && ShowsFlag(j, "required", p.required) && ShowsText(j, "cli_argument_mapping", p.cliArgumentMapping)
            && ShowsText(j, "mutually_exclusive_group", p.mutuallyExclusiveGroup)
  {
    hide Keep;
    ParameterKeysAscend();
    var values := [PutStr(p.allowedRange), PutStr(p.cliArgumentMapping), PutStr(p.defaultValue),
                   PutStr(p.mutuallyExclusiveGroup), PutStr(p.name), PutBool(p.required), PutInt(p.kind)];
    Kept(PARAMETER_KEYS, values);
    var j := ParameterTree(p);
    assert Get(j, PARAMETER_KEYS[0]) == values[0] && Get(j, PARAMETER_KEYS[1]) == values[1];
    assert Get(j, PARAMETER_KEYS[2]) == values[2] && Get(j, PARAMETER_KEYS[3]) == values[3];
    assert Get(j, PARAMETER_KEYS[4]) == values[4] && Get(j, PARAMETER_KEYS[5]) == values[5];
    assert Get(j, PARAMETER_KEYS[6]) == values[6];
  }

  lemma PolicySays(p: Policy)
    ensures var j := PolicyTree(p);
            && Keyed(j, {"path_or_pattern", "policy"})
            && ShowsText(j, "path_or_pattern", p.pathOrPattern) && ShowsNumber(j, "policy", p.kind)
  {
    hide Keep;
    PolicyKeysAscend();
    var values := [PutStr(p.pathOrPattern), PutInt(p.kind)];
    Kept(POLICY_KEYS, values);
    assert Get(PolicyTree(p), POLICY_KEYS[0]) == values[0] && Get(PolicyTree(p), POLICY_KEYS[1]) == values[1];
  }

  lemma ExecutionSays(e: Execution, writable: seq<Json>, capabilities: seq<Json>)
    ensures var j := ExecutionTree(e, writable, capabilities);
            && Keyed(j, {"writable_paths", "network_policy", "requires_root", "required_capabilities"})
            && ShowsText(j, "network_policy", e.networkPolicy) && ShowsFlag(j, "requires_root", e.requiresRoot)
            && ShowsList(j, "writable_paths", writable) && ShowsList(j, "required_capabilities", capabilities)
  {
    hide Keep;
    ExecutionKeysAscend();
    var values := [PutStr(e.networkPolicy), PutList(capabilities), PutBool(e.requiresRoot), PutList(writable)];
    Kept(EXECUTION_KEYS, values);
    var j := ExecutionTree(e, writable, capabilities);
    assert Get(j, EXECUTION_KEYS[0]) == values[0] && Get(j, EXECUTION_KEYS[1]) == values[1];
    assert Get(j, EXECUTION_KEYS[2]) == values[2] && Get(j, EXECUTION_KEYS[3]) == values[3];
  }

  /** A present but empty message is shown; an absent one is not. */
  lemma SpecSays(command: Option<Json>, execution: Option<Json>, inputs: seq<Json>, policies: seq<Json>,
                 outputs: seq<Json>, parameters: seq<Json>)
    ensures var j := SpecTree(command, execution, inputs, policies, outputs, parameters);
            && Keyed(j, {"command", "inputs", "outputs", "parameters", "intermediate_file_policies",
                         "execution_environment"})
            && Get(j, "command") == command && Get(j, "execution_environment") == execution
            && ShowsList(j, "inputs", inputs) && ShowsList(j, "outputs", outputs)
            && ShowsList(j, "parameters", parameters) && ShowsList(j, "intermediate_file_policies", policies)
  {
    hide Keep;
    SpecKeysAscend();
    var values := [command, execution, PutList(inputs), PutList(policies), PutList(outputs), PutList(parameters)];
    Kept(SPEC_KEYS, values);
    var j := SpecTree(command, execution, inputs, policies, outputs, parameters);
    assert Get(j, SPEC_KEYS[0]) == values[0] && Get(j, SPEC_KEYS[1]) == values[1];
    assert Get(j, SPEC_KEYS[2]) == values[2] && Get(j, SPEC_KEYS[3]) == values[3];
    assert Get(j, SPEC_KEYS[4]) == values[4] && Get(j, SPEC_KEYS[5]) == values[5];
  }

  function Texts(s: seq<string>): (r: seq<Json>)
    ensures |r| == |s|
  {
    seq(|s|, i requires 0 <= i < |s| => Str(s[i]))
  }

  lemma TextsAre(s: seq<string>)
    ensures Map(StrItem, s) == Texts(s)
  {
    hide Map;
  }

  // ── the declaration read back from its tree ─────────────────────────────────

  function TextAt(j: Json, key: string): string {
    match Get(j, key) case Some(Str(s)) => s case _ => ""
  }

  function NumberAt(j: Json, key: string): int {
    match Get(j, key) case Some(Num(n)) => n case _ => 0
  }

  function FlagAt(j: Json, key: string): bool {
    match Get(j, key) case Some(Bool(b)) => b case _ => false
  }

  function ItemsAt(j: Json, key: string): seq<Json> {
    match Get(j, key) case Some(Arr(items)) => items case _ => []
  }

  function ReadText(j: Json): string { if j.Str? then j.s else "" }

  function ReadNumber(j: Json): int { if j.Num? then j.n else 0 }

  function ReadEnv(j: Json): EnvVar { EnvVar(TextAt(j, "name"), TextAt(j, "source")) }

  function ReadTimeout(j: Json): Timeout { Timeout(NumberAt(j, "soft_seconds"), NumberAt(j, "hard_seconds")) }

  function ReadCommand(j: Json): Command {
    Command(TextAt(j, "executable"), Map(ReadText, ItemsAt(j, "arguments")), TextAt(j, "working_directory"),
            Map(ReadEnv, ItemsAt(j, "environment")), Map(ReadNumber, ItemsAt(j, "success_exit_codes")),
            match Get(j, "timeout_policy") case None => None case Some(t) => Some(ReadTimeout(t)))
  }

  function ReadPort(j: Json): Port {
    Port(TextAt(j, "name"), TextAt(j, "data_format"), NumberAt(j, "cardinality"), FlagAt(j, "required"),
         TextAt(j, "path_or_glob"), TextAt(j, "path_placement_rule"), Map(ReadText, ItemsAt(j, "companion_files")),
         TextAt(j, "completion_check"))
  }

  function ReadParameter(j: Json): Parameter {
    Parameter(TextAt(j, "name"), NumberAt(j, "type"), TextAt(j, "default_value"), TextAt(j, "allowed_range"),
              FlagAt(j, "required"), TextAt(j, "cli_argument_mapping"), TextAt(j, "mutually_exclusive_group"))
  }

  function ReadPolicy(j: Json): Policy { Policy(TextAt(j, "path_or_pattern"), NumberAt(j, "policy")) }

  function ReadExecution(j: Json): Execution {
    Execution(Map(ReadText, ItemsAt(j, "writable_paths")), TextAt(j, "network_policy"), FlagAt(j, "requires_root"),
              Map(ReadText, ItemsAt(j, "required_capabilities")))
  }

  function Read(j: Json): Spec {
    Spec(match Get(j, "command") case None => None case Some(c) => Some(ReadCommand(c)),
         Map(ReadPort, ItemsAt(j, "inputs")), Map(ReadPort, ItemsAt(j, "outputs")),
         Map(ReadParameter, ItemsAt(j, "parameters")), Map(ReadPolicy, ItemsAt(j, "intermediate_file_policies")),
         match Get(j, "execution_environment") case None => None case Some(e) => Some(ReadExecution(e)))
  }

  lemma {:induction false} MapBack<T, U>(f: T -> U, g: U -> T, s: seq<T>)
    requires forall x :: x in s ==> g(f(x)) == x
    ensures Map(g, Map(f, s)) == s
    decreases |s|
  {
    if s != [] {
      MapBack(f, g, s[1..]);
      assert Map(f, s)[1..] == Map(f, s[1..]);
      assert s == [s[0]] + s[1..];
    }
  }

  lemma EnvBack(e: EnvVar)
    ensures ReadEnv(EnvTree(e)) == e
  {
    hide EnvTree, Get;
    EnvSays(e);
  }

  lemma TimeoutBack(t: Timeout)
    ensures ReadTimeout(TimeoutTree(t)) == t
  {
    hide TimeoutTree, Get;
    TimeoutSays(t);
  }

  lemma ParameterBack(p: Parameter)
    ensures ReadParameter(ParameterTree(p)) == p
  {
    hide ParameterTree, Get;
    ParameterSays(p);
  }

  lemma PolicyBack(p: Policy)
    ensures ReadPolicy(PolicyTree(p)) == p
  {
    hide PolicyTree, Get;
    PolicySays(p);
  }

  lemma TextsBack(s: seq<string>)
    ensures Map(ReadText, Map(StrItem, s)) == s
  {
    hide Map;
    MapBack(StrItem, ReadText, s);
  }

  /** A command as its tree shows it, for whatever lists it was given. */
  lemma CommandBack(c: Command, environment: seq<Json>, exitCodes: seq<Json>)
    ensures ReadCommand(CommandTree(c, environment, exitCodes))
            == c.(environment := Map(ReadEnv, environment), successExitCodes := Map(ReadNumber, exitCodes))
  {
    hide CommandTree, Get, Map, TimeoutTree, ReadTimeout;
    CommandSays(c, environment, exitCodes);
    TextsAre(c.arguments);
    TextsBack(c.arguments);
    if c.timeoutPolicy.Some? { TimeoutBack(c.timeoutPolicy.value); }
  }

  lemma PortBack(p: Port, companions: seq<Json>)
    ensures ReadPort(PortTree(p, companions)) == p.(companionFiles := Map(ReadText, companions))
  {
    hide PortTree, Get, Map;
    PortSays(p, companions);
  }

  lemma ExecutionBack(e: Execution, writable: seq<Json>, capabilities: seq<Json>)
    ensures ReadExecution(ExecutionTree(e, writable, capabilities))
            == e.(writablePaths := Map(ReadText, writable), requiredCapabilities := Map(ReadText, capabilities))
  {
    hide ExecutionTree, Get, Map;
    ExecutionSays(e, writable, capabilities);
  }

  lemma SpecBack(command: Option<Json>, execution: Option<Json>, inputs: seq<Json>, policies: seq<Json>,
                 outputs: seq<Json>, parameters: seq<Json>)
    ensures Read(SpecTree(command, execution, inputs, policies, outputs, parameters))
            == Spec(match command case None => None case Some(c) => Some(ReadCommand(c)),
                    Map(ReadPort, inputs), Map(ReadPort, outputs), Map(ReadParameter, parameters),
                    Map(ReadPolicy, policies),
                    match execution case None => None case Some(e) => Some(ReadExecution(e)))
  {
    hide SpecTree, Get, Map, ReadCommand, ReadExecution;
    SpecSays(command, execution, inputs, policies, outputs, parameters);
  }

  /**
   The order-keeping canonicalizer loses and misplaces nothing: reading its tree by the literal keys gives the
   declaration back.
   */
  lemma CanonicalV0ReadsBack(s: Spec)
    ensures Read(CanonicalV0(s)) == s
  {
    hide Map, SpecTree, CommandTree, ExecutionTree, PortTree, ParameterTree, PolicyTree, EnvTree;
    hide ReadCommand, ReadExecution, ReadPort, ReadParameter, ReadPolicy, ReadEnv, Read;
    SpecBack(CommandV0(s.command), ExecutionV0(s.execution), Map(PortV0, s.inputs), Map(PolicyTree, s.policies),
             Map(PortV0, s.outputs), Map(ParameterTree, s.parameters));
    if s.command.Some? {
      var c := s.command.value;
      CommandBack(c, Map(EnvTree, c.environment), Map(NumItem, c.successExitCodes));
      forall e ensures ReadEnv(EnvTree(e)) == e { EnvBack(e); }
      MapBack(EnvTree, ReadEnv, c.environment);
      MapBack(NumItem, ReadNumber, c.successExitCodes);
    }
    if s.execution.Some? {
      var e := s.execution.value;
      ExecutionBack(e, Map(StrItem, e.writablePaths), Map(StrItem, e.requiredCapabilities));
      TextsBack(e.writablePaths);
      TextsBack(e.requiredCapabilities);
    }
    forall p ensures ReadPort(PortV0(p)) == p {
      PortBack(p, Map(StrItem, p.companionFiles));
      TextsBack(p.companionFiles);
    }
    forall p ensures ReadParameter(ParameterTree(p)) == p { ParameterBack(p); }
    forall p ensures ReadPolicy(PolicyTree(p)) == p { PolicyBack(p); }
    MapBack(PortV0, ReadPort, s.inputs);
    MapBack(PortV0, ReadPort, s.outputs);
    MapBack(ParameterTree, ReadParameter, s.parameters);
    MapBack(PolicyTree, ReadPolicy, s.policies);
  }

  // ── w2-set-v1 is legacy-order-v0 of the sorted declaration ───────────────────

  /** A sorted list of trees read back: the same elements, and their trees in that order. */
  lemma SetReadsBack<T(!new)>(f: T -> Json, g: Json -> T, a: seq<T>)
    requires (forall x :: g(f(x)) == x) && SetOf(Map(f, a)).Some?
    ensures var l := SetOf(Map(f, a)).value;
            && multiset(Map(g, l)) == multiset(a) && Map(f, Map(g, l)) == l && StrictlyAscending(Map(f, Map(g, l)))
  {
    hide SetOf, Map, StrictlyAscending;
    var all := Map(f, a);
    var l := SetOf(all).value;
    SetOfSpec(all);
    ElementsAreTrees(f, g, a, l);
    MapPermutes(g, l, all);
    MapBack(f, g, a);
    assert Map(f, Map(g, l)) == l;
  }

  lemma ElementsAreTrees<T(!new)>(f: T -> Json, g: Json -> T, a: seq<T>, l: seq<Json>)
    requires (forall x :: g(f(x)) == x) && multiset(l) == multiset(Map(f, a))
    ensures forall j :: j in l ==> f(g(j)) == j
  {
    hide Map;
    forall j | j in l ensures f(g(j)) == j {
      assert j in multiset(Map(f, a));
      var i :| 0 <= i < |Map(f, a)| && Map(f, a)[i] == j;
    }
  }

  lemma MapPermutes<T, U>(f: T -> U, a: seq<T>, b: seq<T>)
    requires multiset(a) == multiset(b)
    ensures multiset(Map(f, a)) == multiset(Map(f, b))
  {
    hide Map;
    MapSame(a);
    MapSame(b);
    MultisetsTransfer((x: T) => Same(x), f, a, b);
  }

  /** The nine lists ascend strictly by the bytes of their elements. */
  ghost predicate SetsAscend(s: Spec) {
    && (s.command.Some? ==> CommandAscends(s.command.value))
    && PortsAscend(s.inputs) && PortsAscend(s.outputs)
    && StrictlyAscending(Map(ParameterTree, s.parameters)) && StrictlyAscending(Map(PolicyTree, s.policies))
    && (s.execution.Some? ==> ExecutionAscends(s.execution.value))
  }

  ghost predicate CommandAscends(c: Command) {
    StrictlyAscending(Map(EnvTree, c.environment)) && StrictlyAscending(Map(NumItem, c.successExitCodes))
  }

  ghost predicate ExecutionAscends(e: Execution) {
    && StrictlyAscending(Map(StrItem, e.writablePaths)) && StrictlyAscending(Map(StrItem, e.requiredCapabilities))
  }

  ghost predicate PortsAscend(ps: seq<Port>) {
    && StrictlyAscending(Map(PortV0, ps))
    && forall i :: 0 <= i < |ps| ==> StrictlyAscending(Map(StrItem, ps[i].companionFiles))
  }

  lemma CommandV1Back(c: Command)
    requires CommandV1(c).Some?
    ensures var j := CommandV1(c).value; var d := ReadCommand(j);
            CommandV0(Some(d)) == Some(j) && KeyOfCommand(d) == KeyOfCommand(c) && CommandAscends(d)
  {
    hide SetOf, Map, CommandTree, EnvTree, ReadEnv, StrictlyAscending, ReadCommand;
    var environment, codes := SetOf(Map(EnvTree, c.environment)).value, SetOf(Map(NumItem, c.successExitCodes)).value;
    CommandBack(c, environment, codes);
    forall e ensures ReadEnv(EnvTree(e)) == e { EnvBack(e); }
    SetReadsBack(EnvTree, ReadEnv, c.environment);
    SetReadsBack(NumItem, ReadNumber, c.successExitCodes);
    SameCommandTree(c, ReadCommand(CommandV1(c).value), environment, codes);
  }

  /** A command's tree looks at its own two lists only as they are passed. */
  lemma SameCommandTree(c: Command, d: Command, environment: seq<Json>, codes: seq<Json>)
    requires d == c.(environment := d.environment, successExitCodes := d.successExitCodes)
    ensures CommandTree(c, environment, codes) == CommandTree(d, environment, codes)
  {
    hide Keep, Map;
  }

  lemma PortItemBack(p: Port)
    requires PortAccepted(p)
    ensures var j := PortItem(p); var q := ReadPort(j);
            && PortV0(q) == j && KeyOfPort(q) == KeyOfPort(p) && StrictlyAscending(Map(StrItem, q.companionFiles))
  {
    hide SetOf, Map, StrictlyAscending, ReadPort, PortTree;
    var companions := SetOf(Map(StrItem, p.companionFiles)).value;
    PortBack(p, companions);
    SetReadsBack(StrItem, ReadText, p.companionFiles);
    SamePortTree(p, ReadPort(PortItem(p)), companions);
  }

  lemma SamePortTree(p: Port, q: Port, companions: seq<Json>)
    requires q == p.(companionFiles := q.companionFiles)
    ensures PortTree(p, companions) == PortTree(q, companions)
  {
    hide Keep;
  }

  lemma PortsV1Back(ps: seq<Port>)
    requires PortsV1(ps).Some?
    ensures var l := PortsV1(ps).value; var qs := Map(ReadPort, l);
            Map(PortV0, qs) == l && multiset(Map(KeyOfPort, qs)) == multiset(Map(KeyOfPort, ps)) && PortsAscend(qs)
  {
    hide SetOf, Map, StrictlyAscending, ReadPort, PortV0, PortItem, KeyOfPort, PortAccepted;
    var all, l := Map(PortItem, ps), PortsV1(ps).value;
    var qs := Map(ReadPort, l);
    SetOfSpec(all);
    forall j | j in l
      ensures PortV0(ReadPort(j)) == j && StrictlyAscending(Map(StrItem, ReadPort(j).companionFiles))
    {
      assert j in multiset(all);
      var i :| 0 <= i < |all| && all[i] == j;
      PortItemBack(ps[i]);
    }
    assert Map(PortV0, qs) == l;
    MapPermutes(ReadPort, l, all);
    var rs := Map(ReadPort, all);
    MapPermutes(KeyOfPort, qs, rs);
    forall i | 0 <= i < |ps| ensures KeyOfPort(rs[i]) == KeyOfPort(ps[i]) { PortItemBack(ps[i]); }
    assert Map(KeyOfPort, rs) == Map(KeyOfPort, ps);
  }

  lemma ExecutionV1Back(e: Execution)
    requires ExecutionV1(e).Some?
    ensures var j := ExecutionV1(e).value; var d := ReadExecution(j);
            ExecutionV0(Some(d)) == Some(j) && KeyOfExecution(d) == KeyOfExecution(e) && ExecutionAscends(d)
  {
    hide SetOf, Map, StrictlyAscending, ReadExecution, Keep;
    var writable := SetOf(Map(StrItem, e.writablePaths)).value;
    var capabilities := SetOf(Map(StrItem, e.requiredCapabilities)).value;
    ExecutionBack(e, writable, capabilities);
    SetReadsBack(StrItem, ReadText, e.writablePaths);
    SetReadsBack(StrItem, ReadText, e.requiredCapabilities);
  }

  /**
   The set canonicalizer sorts and does nothing else: read by the literal keys, its tree is the order-keeping tree
   of a declaration that is the given one up to the order of the nine set-like lists, each of them ascending
   strictly by the bytes of its elements.
   */
  lemma CanonicalV1ReadsBack(s: Spec)
    requires CanonicalV1(s).Some?
    ensures var j := CanonicalV1(s).value; var t := Read(j);
            CanonicalV0(t) == j && KeyOf(t) == KeyOf(s) && SetsAscend(t)
  {
    hide SetOf, Map, StrictlyAscending, SpecTree, CommandV1, ExecutionV1, PortsV1, CommandV0, ExecutionV0, PortV0;
    hide ParameterTree, PolicyTree, ReadCommand, ReadExecution, ReadPort, ReadParameter, ReadPolicy, Read;
    hide KeyOfCommand, KeyOfExecution, CommandAscends, ExecutionAscends, PortsAscend;
    var command, execution := PresentCommand(s.command).value, PresentExecution(s.execution).value;
    var inputs, outputs := PortsV1(s.inputs).value, PortsV1(s.outputs).value;
    var parameters, policies := SetOf(Map(ParameterTree, s.parameters)).value, SetOf(Map(PolicyTree, s.policies)).value;
    SpecBack(command, execution, inputs, policies, outputs, parameters);
    if s.command.Some? { CommandV1Back(s.command.value); }
    if s.execution.Some? { ExecutionV1Back(s.execution.value); }
    PortsV1Back(s.inputs);
    PortsV1Back(s.outputs);
    forall p ensures ReadParameter(ParameterTree(p)) == p { ParameterBack(p); }
    forall p ensures ReadPolicy(PolicyTree(p)) == p { PolicyBack(p); }
    SetReadsBack(ParameterTree, ReadParameter, s.parameters);
    SetReadsBack(PolicyTree, ReadPolicy, s.policies);
    NoMessages();
  }

  lemma NoMessages()
    ensures CommandV0(None) == None && ExecutionV0(None) == None
  {
  }

  // ── the bytes ───────────────────────────────────────────────────────────────

  function HexValue(c: char): Option<nat> {
    if '0' <= c <= '9' then Some(c as int - '0' as int)
    else if 'a' <= c <= 'f' then Some(c as int - 'a' as int + 10)
    else if 'A' <= c <= 'F' then Some(c as int - 'A' as int + 10)
    else None
  }

  function HexRun(s: string): Option<nat> {
    if s == "" then Some(0)
    else
      var high, low := HexRun(s[..|s| - 1]), HexValue(s[|s| - 1]);
      if high.Some? && low.Some? then Some(16 * high.value + low.value) else None
  }

  /** The two-character escapes of section 7. */
  function EscapedBy(c: char): Option<char> {
    if c == '"' || c == '\\' || c == '/' then Some(c)
    else if c == 'b' then Some(8 as char) else if c == 'f' then Some(12 as char)
    else if c == 'n' then Some(10 as char) else if c == 'r' then Some(13 as char)
    else if c == 't' then Some(9 as char)
    else None
  }

  /** The text between the quotes of a string stands for this string. */
  predicate SpellsString(e: string, s: string)
    decreases |e|
  {
    if e == "" then s == ""
    else if e[0] != '\\' then
      e[0] as int >= 0x20 && e[0] != '"' && s != "" && e[0] == s[0] && SpellsString(e[1..], s[1..])
    else if |e| < 2 || s == "" then false
    else if e[1] == 'u' then |e| >= 6 && HexRun(e[2..6]) == Some(s[0] as int) && SpellsString(e[6..], s[1..])
    else EscapedBy(e[1]) == Some(s[0]) && SpellsString(e[2..], s[1..])
  }

  predicate Quotes(t: string, s: string) {
    |t| >= 2 && t[0] == '"' && t[|t| - 1] == '"' && SpellsString(t[1..|t| - 1], s)
  }

  function DecimalRun(d: string): Option<nat> {
    if d == "" then Some(0)
    else
      var high := DecimalRun(d[..|d| - 1]);
      if high.Some? && '0' <= d[|d| - 1] <= '9' then Some(10 * high.value + (d[|d| - 1] as int - '0' as int)) else None
  }

  /** An integer: an optional minus and digits without a leading zero. */
  predicate WritesInteger(t: string, n: int) {
    var digits := if n < 0 then (if t != "" && t[0] == '-' then t[1..] else "") else t;
    digits != "" && (digits[0] == '0' ==> |digits| == 1) && DecimalRun(digits) == Some(if n < 0 then -n else n)
  }

  function Commas(ts: seq<string>): string {
    if ts == [] then "" else if |ts| == 1 then ts[0] else ts[0] + "," + Commas(ts[1..])
  }

  /** The text is JSON for the tree, without white space. */
  ghost predicate Denotes(t: string, j: Json)
    decreases j, 1
  {
    match j
    case Bool(b) => t == if b then "true" else "false"
    case Num(n) => WritesInteger(t, n)
    case Str(s) => Quotes(t, s)
    case Arr(items) => exists ts: seq<string> :: t == "[" + Commas(ts) + "]" && DenoteItems(ts, items)
    case Obj(fields) => exists ts: seq<string> :: t == "{" + Commas(ts) + "}" && DenoteFields(ts, fields)
  }

  ghost predicate DenoteItems(ts: seq<string>, items: seq<Json>)
    decreases items, 0
  {
    |ts| == |items| && (items != [] ==> Denotes(ts[0], items[0]) && DenoteItems(ts[1..], items[1..]))
  }

  ghost predicate DenoteFields(ts: seq<string>, fields: seq<Field>)
    decreases fields, 0
  {
    |ts| == |fields| && (fields != [] ==> DenotesMember(ts[0], fields[0]) && DenoteFields(ts[1..], fields[1..]))
  }

  ghost predicate DenotesMember(t: string, f: Field)
    decreases f, 2
  {
    exists k, v :: t == k + ":" + v && Quotes(k, f.key) && Denotes(v, f.value)
  }

  lemma Hex4Reads(n: nat)
    requires n < 0x10000
    ensures HexRun(Hex4(n)) == Some(n)
  {
    var h := Hex4(n);
    var a, b, c, d := n / 16 / 16 / 16, n / 16 / 16 % 16, n / 16 % 16, n % 16;
    HexReads(a);
    HexReads(b);
    HexReads(c);
    HexReads(d);
    assert h[..3] == [Hex(a), Hex(b), Hex(c)] && h[..3][..2] == [Hex(a), Hex(b)];
    assert [Hex(a), Hex(b)][..1] == [Hex(a)] && [Hex(a)][..0] == "";
    assert HexRun([Hex(a)]) == Some(a);
    assert HexRun([Hex(a), Hex(b)]) == Some(16 * a + b);
    assert HexRun(h[..3]) == Some(16 * (16 * a + b) + c);
  }

  lemma HexReads(n: nat)
    requires n < 16
    ensures HexValue(Hex(n)) == Some(n)
  {
  }

  lemma Hex4Is(n: nat, a: nat, b: nat, c: nat, d: nat)
    requires a < 16 && b < 16 && c < 16 && d < 16 && n == ((a * 16 + b) * 16 + c) * 16 + d
    ensures Hex4(n) == [Hex(a), Hex(b), Hex(c), Hex(d)]
  {
    assert n % 16 == d && n / 16 == (a * 16 + b) * 16 + c;
    assert n / 16 % 16 == c && n / 16 / 16 == a * 16 + b;
    assert n / 16 / 16 % 16 == b && n / 16 / 16 / 16 == a;
  }

  lemma HexDigits()
    ensures Hex(0) == '0' && Hex(1) == '1' && Hex(2) == '2' && Hex(3) == '3' && Hex(6) == '6' && Hex(8) == '8'
    ensures Hex(9) == '9' && Hex(12) == 'c' && Hex(14) == 'e' && Hex(15) == 'f'
  {
  }

  /** What encoding/json leaves as it is inside a string. */
  lemma LeavesAsGo(c: char)
    ensures EscapeChar(c) == [c] <==>
              c as int >= 0x20 && c !in {'"', '\\', '<', '>', '&'} && c as int != 0x2028 && c as int != 0x2029
  {
    hide Hex4;
  }

  /** Its seven two-character escapes. */
  lemma ShortensAsGo()
    ensures EscapeChar('"') == ['\\', '"'] && EscapeChar('\\') == ['\\', '\\']
    ensures EscapeChar(8 as char) == ['\\', 'b'] && EscapeChar(12 as char) == ['\\', 'f']
    ensures EscapeChar(10 as char) == ['\\', 'n'] && EscapeChar(13 as char) == ['\\', 'r']
    ensures EscapeChar(9 as char) == ['\\', 't']
  {
    hide Hex4;
  }

  /** Everything else is written with four lower-case hex digits. */
  lemma EscapesAsGo(c: char)
    requires c as int < 0x20 || c in {'<', '>', '&'} || c as int == 0x2028 || c as int == 0x2029
    requires c as int !in {8, 9, 10, 12, 13}
    ensures c as int < 0x10000 && EscapeChar(c) == "\\u" + Hex4(c as int)
    ensures c == '<' ==> Hex4(c as int) == ['0', '0', '3', 'c']
    ensures c == '>' ==> Hex4(c as int) == ['0', '0', '3', 'e']
    ensures c == '&' ==> Hex4(c as int) == ['0', '0', '2', '6']
    ensures c as int == 0x2028 ==> Hex4(c as int) == ['2', '0', '2', '8']
    ensures c as int == 0x1f ==> Hex4(c as int) == ['0', '0', '1', 'f']
  {
    hide Hex4, Hex;
    HexDigits();
    Hex4Is(0x3c, 0, 0, 3, 12);
    Hex4Is(0x3e, 0, 0, 3, 14);
    Hex4Is(0x26, 0, 0, 2, 6);
    Hex4Is(0x2028, 2, 0, 2, 8);
    Hex4Is(0x1f, 0, 0, 1, 15);
  }

  lemma {:induction false} EscapeSpells(s: string)
    ensures SpellsString(Escape(s), s)
    decreases |s|
  {
    hide Hex4;
    if s != "" {
      EscapeSpells(s[1..]);
      SpellsOneMore(s[0], Escape(s[1..]), s[1..]);
      assert [s[0]] + s[1..] == s;
    }
  }

  lemma SpellsOneMore(c: char, e: string, s: string)
    requires SpellsString(e, s)
    ensures SpellsString(EscapeChar(c) + e, [c] + s)
  {
    hide Hex4;
    var t := EscapeChar(c) + e;
    assert ([c] + s)[1..] == s;
    if Plain(c) {
      assert t[1..] == e;
    } else if Short(c) != '?' {
      assert t[2..] == e && t[1] == Short(c);
    } else {
      Hex4Reads(c as int);
      assert t[2..6] == Hex4(c as int) && t[6..] == e && t[1] == 'u';
    }
  }

  lemma {:induction false} DigitsRead(n: nat)
    ensures DecimalRun(Digits(n)) == Some(n)
    ensures Digits(n)[0] == '0' ==> |Digits(n)| == 1
    ensures n > 0 ==> Digits(n)[0] != '0'
    decreases n
  {
    var d := Digits(n);
    if n < 10 {
      assert d[..|d| - 1] == "";
      DigitReads(n);
    } else {
      DigitsRead(n / 10);
      DigitReads(n % 10);
      assert d[..|d| - 1] == Digits(n / 10) && d[0] == Digits(n / 10)[0];
    }
  }

  lemma DigitReads(n: nat)
    requires n < 10
    ensures DigitChar(n) as int == '0' as int + n
  {
  }

  lemma NumberWrites(n: int)
    ensures WritesInteger(NumberText(n), n)
  {
    hide DecimalRun, Digits;
    if n < 0 {
      DigitsRead(-n);
      assert NumberText(n)[1..] == Digits(-n);
    } else {
      DigitsRead(n);
    }
  }

  lemma QuotesWrites(s: string)
    ensures Quotes("\"" + Escape(s) + "\"", s)
  {
    hide Escape, SpellsString;
    EscapeSpells(s);
    var t := "\"" + Escape(s) + "\"";
    assert t[1..|t| - 1] == Escape(s);
  }

  /** The bytes that are sorted and hashed are JSON text for the tree, without white space. */
  lemma {:induction false} EncodeDenotes(j: Json)
    ensures Denotes(Encode(j), j)
    decreases j, 1
  {
    hide Escape, NumberText, Quotes, WritesInteger;
    match j
    case Bool(_) =>
    case Num(n) => NumberWrites(n);
    case Str(s) => QuotesWrites(s);
    case Arr(items) =>
      var ts := ItemsDenote(items);
      assert Encode(j) == "[" + Commas(ts) + "]";
    case Obj(fields) =>
      var ts := FieldsDenote(fields);
      assert Encode(j) == "{" + Commas(ts) + "}";
  }

  lemma {:induction false} ItemsDenote(items: seq<Json>) returns (ts: seq<string>)
    ensures EncodeItems(items) == Commas(ts) && DenoteItems(ts, items)
    decreases items, 0
  {
    hide Encode, Denotes;
    if items == [] {
      ts := [];
    } else {
      EncodeDenotes(items[0]);
      var rest := ItemsDenote(items[1..]);
      ts := [Encode(items[0])] + rest;
      assert ts[1..] == rest;
    }
  }

  lemma {:induction false} FieldsDenote(fields: seq<Field>) returns (ts: seq<string>)
    ensures EncodeFields(fields) == Commas(ts) && DenoteFields(ts, fields)
    decreases fields, 0
  {
    hide FieldText, DenotesMember;
    if fields == [] {
      ts := [];
    } else {
      MemberDenotes(fields[0]);
      var rest := FieldsDenote(fields[1..]);
      ts := [FieldText(fields[0])] + rest;
      assert ts[1..] == rest;
    }
  }

  lemma {:induction false} MemberDenotes(f: Field)
    ensures DenotesMember(FieldText(f), f)
    decreases f, 2
  {
    hide Encode, Escape, Quotes, Denotes;
    var k, v := "\"" + Escape(f.key) + "\"", Encode(f.value);
    QuotesWrites(f.key);
    EncodeDenotes(f.value);
    assert FieldText(f) == k + ":" + v;
  }

  // ── what is hashed ──────────────────────────────────────────────────────────

  /** A key in quotes and its colon. */
  function MemberKey(k: string): string {
    "\"" + k + "\":"
  }

  /** The two digests are the hash of an object with these two members, in this order. */
  lemma DigestPreimages(sha: string -> string, base: string, spec: Json, digest: string, image: string)
    ensures ToolFunctionDigest(sha, base, spec)
            == sha("{" + MemberKey("base_tool_spec_digest") + Encode(Str(base))
                   + "," + MemberKey("spec") + Encode(spec) + "}")
    ensures CasHash(sha, digest, image)
            == sha("{" + MemberKey("function_image_digest") + Encode(Str(image))
                   + "," + MemberKey("tool_function_digest") + Encode(Str(digest)) + "}")
  {
    hide Encode, MemberKey;
    TwoMembers("base_tool_spec_digest", Str(base), "spec", spec);
    TwoMembers("function_image_digest", Str(image), "tool_function_digest", Str(digest));
  }

  lemma {:induction false} PlainEscapes(s: string)
    requires forall i :: 0 <= i < |s| ==> Plain(s[i])
    ensures Escape(s) == s
    decreases |s|
  {
    if s != "" {
      PlainEscapes(s[1..]);
      assert s == [s[0]] + s[1..];
    }
  }

  lemma PlainMember(k: string, v: Json)
    requires forall i :: 0 <= i < |k| ==> Plain(k[i])
    ensures FieldText(Field(k, v)) == MemberKey(k) + Encode(v)
  {
    hide Encode, Escape;
    PlainEscapes(k);
  }

  lemma TwoMembers(k: string, v: Json, l: string, w: Json)
    requires forall i :: 0 <= i < |k| ==> Plain(k[i])
    requires forall i :: 0 <= i < |l| ==> Plain(l[i])
    ensures Encode(Obj([Field(k, v), Field(l, w)]))
            == "{" + MemberKey(k) + Encode(v) + "," + MemberKey(l) + Encode(w) + "}"
  {
    hide FieldText, MemberKey;
    PlainMember(k, v);
    PlainMember(l, w);
    var fields := [Field(k, v), Field(l, w)];
    assert fields[1..] == [Field(l, w)];
    assert EncodeFields([Field(l, w)]) == FieldText(Field(l, w));
    assert EncodeFields(fields) == FieldText(Field(k, v)) + "," + FieldText(Field(l, w));
    Braced(MemberKey(k), Encode(v), MemberKey(l), Encode(w));
  }

  lemma Braced(a: string, b: string, c: string, d: string)
    ensures "{" + ((a + b) + "," + (c + d)) + "}" == "{" + a + b + "," + c + d + "}"
  {
  }
}
