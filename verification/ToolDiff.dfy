/** Schema comparison between two inspections of a server (api/mcp/client.py). */
module ToolDiff {
  import opened Options
  import opened Json
  import opened Digest

  datatype ToolDefinition = ToolDefinition(
    name: string, description: Option<string>, input: Schema, output: Option<Schema>)

  /** Python's `set(value)` on a JSON value: keys, elements or characters; `None` is a TypeError. */
  function SetOf(value: Json): Option<set<Json>> {
    match value
    case Obj(fields) => Some(set k | k in fields :: Str(k))
    case Str(text) => Some(set i | 0 <= i < |text| :: Str([text[i]]))
    case Arr(items) =>
      if exists i | 0 <= i < |items| :: items[i].Arr? || items[i].Obj? then None
      else Some(set item | item in items)
    case _ => None
  }

  function Field(schema: Schema, key: string): Json {
    if key in schema then schema[key] else Obj(map[])
  }

  /** The schema's parameter names and required names can be read at all. */
  predicate Readable(schema: Schema) {
    SetOf(Field(schema, "properties")).Some? && SetOf(Field(schema, "required")).Some?
  }

  function Params(schema: Schema): set<Json>
    requires Readable(schema)
  {
    SetOf(Field(schema, "properties")).value
  }

  function Required(schema: Schema): set<Json>
    requires Readable(schema)
  {
    SetOf(Field(schema, "required")).value
  }

  datatype Change<T> = Change(old_: T, new_: T)

  /** The `changes` dictionary; an absent key is `None` or the empty set. */
  datatype Changes = Changes(
    description: Option<Change<Option<string>>>,
    paramsAdded: set<Json>,
    paramsRemoved: set<Json>,
    paramsNowRequired: set<Json>,
    output: Option<Change<Option<Schema>>>)

  const NO_CHANGES := Changes(None, {}, {}, {}, None)

  datatype ToolChange = ToolChange(name: string, changes: Changes, isBreaking: bool)

  /** `TypeFault` is the TypeError of an unreadable schema. */
  datatype Comparison = TypeFault | Identical | Differs(change: ToolChange)

  /** No difference the comparison looks at: parameter types and defaults are not among them,
      nor is a parameter that stops being required. */
  predicate LooksUnchanged(prev: ToolDefinition, curr: ToolDefinition)
    requires Readable(prev.input) && Readable(curr.input)
  {
    && prev.description == curr.description
    && Params(prev.input) == Params(curr.input)
    && Required(curr.input) <= Required(prev.input)
    && prev.output == curr.output
  }

  predicate Breaks(prev: ToolDefinition, curr: ToolDefinition)
    requires Readable(prev.input) && Readable(curr.input)
  {
    || !(Params(prev.input) <= Params(curr.input))
    || !(Required(curr.input) <= Required(prev.input))
    || (prev.output.Some? && curr.output.Some? && prev.output != curr.output)
  }

  function Compare(prev: ToolDefinition, curr: ToolDefinition): Comparison {
    if !Readable(prev.input) || !Readable(curr.input) then TypeFault
    else if LooksUnchanged(prev, curr) then Identical
    else Differs(ToolChange(curr.name, ChangesBetween(prev, curr), Breaks(prev, curr)))
  }

  function ChangesBetween(prev: ToolDefinition, curr: ToolDefinition): Changes
    requires Readable(prev.input) && Readable(curr.input)
  {
    Changes(
      if prev.description != curr.description then Some(Change(prev.description, curr.description)) else None,
      Params(curr.input) - Params(prev.input),
      Params(prev.input) - Params(curr.input),
      Required(curr.input) - Required(prev.input),
      if prev.output != curr.output then Some(Change(prev.output, curr.output)) else None)
  }

  lemma EmptyDifference<T>(a: set<T>, b: set<T>)
    ensures a - b == {} <==> a <= b
  {
    assert forall x :: x in a && x !in b ==> x in a - b;
  }

  method CompareToolDefinitions(prev: ToolDefinition, curr: ToolDefinition) returns (result: Comparison)
    ensures result == Compare(prev, curr)
  {
    var changes := NO_CHANGES;
    var isBreaking := false;
    if prev.description != curr.description {
      changes := changes.(description := Some(Change(prev.description, curr.description)));
    }
    var prevParams, currParams := SetOf(Field(prev.input, "properties")), SetOf(Field(curr.input, "properties"));
    var prevRequired, currRequired := SetOf(Field(prev.input, "required")), SetOf(Field(curr.input, "required"));
    if prevParams.None? || currParams.None? || prevRequired.None? || currRequired.None? {
      return TypeFault;
    }
    var added := currParams.value - prevParams.value;
    var removed := prevParams.value - currParams.value;
    var newRequired := currRequired.value - prevRequired.value;
    EmptyDifference(currParams.value, prevParams.value);
    EmptyDifference(prevParams.value, currParams.value);
    EmptyDifference(currRequired.value, prevRequired.value);
    if added != {} {
      changes := changes.(paramsAdded := added);
    }
    if removed != {} {
      changes := changes.(paramsRemoved := removed);
      isBreaking := true;
    }
    if newRequired != {} {
      changes := changes.(paramsNowRequired := newRequired);
      isBreaking := true;
    }
    if prev.output != curr.output {
      changes := changes.(output := Some(Change(prev.output, curr.output)));
      if prev.output.Some? && curr.output.Some? {
        isBreaking := true;
      }
    }
    if changes == NO_CHANGES {
      return Identical;
    }
    return Differs(ToolChange(curr.name, changes, isBreaking));
  }

  /** A definition never differs from itself, and comparing it faults only if it is unreadable. */
  lemma CompareSelf(t: ToolDefinition)
    ensures Compare(t, t) == if Readable(t.input) then Identical else TypeFault
  {
  }

  /** What an `Identical` verdict leaves open: with equal names the digests agree exactly when the
      input schemas do. */
  lemma IdenticalDigests(prev: ToolDefinition, curr: ToolDefinition)
    requires Compare(prev, curr) == Identical && prev.name == curr.name
    ensures prev.input == curr.input <==> (
      ComputeToolDigest(prev.name, prev.input, prev.output) == ComputeToolDigest(curr.name, curr.input, curr.output))
  {
    DigestDeterminesTool(prev.name, prev.input, prev.output, curr.name, curr.input, curr.output);
  }

  /** A tool with one parameter of the given JSON Schema type. */
  function OneParameter(jsonType: string): ToolDefinition {
    ToolDefinition("lookup", None,
      map["properties" := Obj(map["id" := Obj(map["type" := Str(jsonType)])])], None)
  }

  /** Changing a parameter's type changes the tool's digest but is reported as no change. */
  lemma TypeChangeUnseen(before: string, after: string)
    requires before != after
    ensures Compare(OneParameter(before), OneParameter(after)) == Identical
    ensures ComputeToolDigest("lookup", OneParameter(before).input, None) !=
            ComputeToolDigest("lookup", OneParameter(after).input, None)
  {
    var b, a := OneParameter(before), OneParameter(after);
    var pb, pa := b.input["properties"], a.input["properties"];
    assert pb.fields.Keys == {"id"} == pa.fields.Keys;
    assert SetOf(pb).value == {Str("id")} == SetOf(pa).value;
    assert pb.fields["id"].fields["type"] == Str(before) && pa.fields["id"].fields["type"] == Str(after);
    assert b.input != a.input;
    IdenticalDigests(b, a);
  }

  // ---------------------------------------------------------------- in terms of parameter names

  /** The usual form: parameters are the keys of an object, required ones an array of strings. */
  predicate WellFormed(schema: Schema) {
    && ("properties" in schema ==> schema["properties"].Obj?)
    && ("required" in schema ==>
         schema["required"].Arr? && forall item | item in schema["required"].items :: item.Str?)
  }

  predicate HasParam(schema: Schema, name: string) {
    "properties" in schema && schema["properties"].Obj? && name in schema["properties"].fields
  }

  predicate NeedsParam(schema: Schema, name: string) {
    "required" in schema && schema["required"].Arr? && Str(name) in schema["required"].items
  }

  lemma ParamsAre(schema: Schema)
    requires WellFormed(schema)
    ensures Readable(schema)
    ensures forall name :: Str(name) in Params(schema) <==> HasParam(schema, name)
    ensures forall name :: Str(name) in Required(schema) <==> NeedsParam(schema, name)
    ensures forall j :: j in Params(schema) || j in Required(schema) ==> j.Str?
  {
    if "required" in schema {
      StringsAreSet(schema["required"]);
    }
  }

  lemma StringsAreSet(value: Json)
    requires value.Arr? && forall item :: item in value.items ==> item.Str?
    ensures SetOf(value) == Some(set item | item in value.items)
  {
    assert forall i :: 0 <= i < |value.items| ==> value.items[i] in value.items;
  }

  /** Null, truth values and numbers are no collections; an array with an array or object in it has
      elements that cannot be hashed. */
  predicate NoSet(value: Json) {
    match value
    case Null => true
    case Bool(_) => true
    case Num(_) => true
    case Str(_) => false
    case Obj(_) => false
    case Arr(items) => exists item | item in items :: item.Arr? || item.Obj?
  }

  lemma NoSetExactly(value: Json)
    ensures SetOf(value).None? <==> NoSet(value)
  {
    if value.Arr? {
      if i :| 0 <= i < |value.items| && (value.items[i].Arr? || value.items[i].Obj?) {
        assert value.items[i] in value.items;
      }
    }
  }

  /** A schema cannot be read exactly when one of the two fields is there and makes no set. */
  lemma UnreadableExactly(schema: Schema)
    ensures !Readable(schema) <==>
      || ("properties" in schema && NoSet(schema["properties"]))
      || ("required" in schema && NoSet(schema["required"]))
  {
    NoSetExactly(Field(schema, "properties"));
    NoSetExactly(Field(schema, "required"));
  }

  /** Some caller of the old tool breaks on the new one: a parameter is gone, one is newly required, or
      both have output schemas and these differ. */
  ghost predicate WouldBreak(input: Schema, output: Option<Schema>, input': Schema, output': Option<Schema>) {
    || (exists name :: HasParam(input, name) && !HasParam(input', name))
    || (exists name :: NeedsParam(input', name) && !NeedsParam(input, name))
    || (output.Some? && output'.Some? && output != output')
  }

  /** Nothing the comparison looks at differs. */
  ghost predicate LooksSame(prev: ToolDefinition, curr: ToolDefinition) {
    && prev.description == curr.description && prev.output == curr.output
    && (forall name :: HasParam(prev.input, name) <==> HasParam(curr.input, name))
    && (forall name :: NeedsParam(curr.input, name) ==> NeedsParam(prev.input, name))
  }

  lemma RemovedParam(prev: Schema, curr: Schema)
    requires WellFormed(prev) && WellFormed(curr) && Readable(prev) && Readable(curr)
    ensures Params(prev) <= Params(curr) <==> !exists name :: HasParam(prev, name) && !HasParam(curr, name)
  {
    ParamsAre(prev);
    ParamsAre(curr);
    if j :| j in Params(prev) && j !in Params(curr) {
      assert j == Str(j.text) && HasParam(prev, j.text) && !HasParam(curr, j.text);
    }
    if name :| HasParam(prev, name) && !HasParam(curr, name) {
      assert Str(name) in Params(prev) && Str(name) !in Params(curr);
    }
  }

  lemma NewlyRequired(prev: Schema, curr: Schema)
    requires WellFormed(prev) && WellFormed(curr) && Readable(prev) && Readable(curr)
    ensures Required(curr) <= Required(prev) <==> !exists name :: NeedsParam(curr, name) && !NeedsParam(prev, name)
  {
    ParamsAre(prev);
    ParamsAre(curr);
    if j :| j in Required(curr) && j !in Required(prev) {
      assert j == Str(j.text) && NeedsParam(curr, j.text) && !NeedsParam(prev, j.text);
    }
    if name :| NeedsParam(curr, name) && !NeedsParam(prev, name) {
      assert Str(name) in Required(curr) && Str(name) !in Required(prev);
    }
  }

  /** A change is breaking exactly when some caller breaks, and a breaking change is never missed. */
  lemma BreakingExactly(prev: ToolDefinition, curr: ToolDefinition)
    requires WellFormed(prev.input) && WellFormed(curr.input)
    ensures !Compare(prev, curr).TypeFault?
    ensures Compare(prev, curr).Differs? && Compare(prev, curr).change.isBreaking <==>
      WouldBreak(prev.input, prev.output, curr.input, curr.output)
  {
    ParamsAre(prev.input);
    ParamsAre(curr.input);
    RemovedParam(prev.input, curr.input);
    NewlyRequired(prev.input, curr.input);
    assert Breaks(prev, curr) ==> !LooksUnchanged(prev, curr);
  }

  lemma IdenticalExactly(prev: ToolDefinition, curr: ToolDefinition)
    requires WellFormed(prev.input) && WellFormed(curr.input)
    ensures Compare(prev, curr).Identical? <==> LooksSame(prev, curr)
  {
    ParamsAre(prev.input);
    ParamsAre(curr.input);
    RemovedParam(prev.input, curr.input);
    RemovedParam(curr.input, prev.input);
    NewlyRequired(prev.input, curr.input);
    assert Params(prev.input) == Params(curr.input) <==>
      Params(prev.input) <= Params(curr.input) && Params(curr.input) <= Params(prev.input);
  }

  /** What is reported: exactly the names gained, lost and newly required, and the old and new values of
      a changed description or output schema. */
  lemma ChangesExactly(prev: ToolDefinition, curr: ToolDefinition)
    requires WellFormed(prev.input) && WellFormed(curr.input) && Compare(prev, curr).Differs?
    ensures var change := Compare(prev, curr).change;
      var c := change.changes;
      && change.name == curr.name
      && (forall j :: j in c.paramsAdded + c.paramsRemoved + c.paramsNowRequired ==> j.Str?)
      && (forall n :: Str(n) in c.paramsAdded <==> HasParam(curr.input, n) && !HasParam(prev.input, n))
      && (forall n :: Str(n) in c.paramsRemoved <==> HasParam(prev.input, n) && !HasParam(curr.input, n))
      && (forall n :: Str(n) in c.paramsNowRequired <==> NeedsParam(curr.input, n) && !NeedsParam(prev.input, n))
      && c.description == (if prev.description == curr.description then None
                           else Some(Change(prev.description, curr.description)))
      && c.output == (if prev.output == curr.output then None else Some(Change(prev.output, curr.output)))
  {
    ParamsAre(prev.input);
    ParamsAre(curr.input);
  }

  /** Gaining optional parameters, whatever happens to the description, breaks nobody. */
  lemma OptionalAdditions(prev: ToolDefinition, curr: ToolDefinition)
    requires WellFormed(prev.input) && WellFormed(curr.input) && prev.output == curr.output
    requires forall name :: HasParam(prev.input, name) ==> HasParam(curr.input, name)
    requires forall name :: NeedsParam(curr.input, name) ==> NeedsParam(prev.input, name)
    ensures Compare(prev, curr).Differs? ==> !Compare(prev, curr).change.isBreaking
  {
    BreakingExactly(prev, curr);
  }

  // ---------------------------------------------------------------- diff_tools

  /** `{t.name: t for t in tools}`: the last definition of a name wins. */
  function ByName(tools: seq<ToolDefinition>): (m: map<string, ToolDefinition>)
    ensures forall n :: n in m ==> m[n].name == n && m[n] in tools
    ensures forall t :: t in tools ==> t.name in m
  {
    if tools == [] then map[]
    else
      var last := tools[|tools| - 1];
      ByName(tools[..|tools| - 1])[last.name := last]
  }

  /** The definition kept is the last one of its name. */
  lemma {:induction false} LastWins(tools: seq<ToolDefinition>, i: nat)
    requires i < |tools| && forall j :: i < j < |tools| ==> tools[j].name != tools[i].name
    ensures tools[i].name in ByName(tools) && ByName(tools)[tools[i].name] == tools[i]
  {
    if i < |tools| - 1 {
      LastWins(tools[..|tools| - 1], i);
    }
  }

  datatype ToolDifference = ToolDifference(
    added: set<ToolDefinition>, removed: set<ToolDefinition>, changed: set<ToolChange>)

  /** The comparisons made so far, of every common name outside `todo`. */
  ghost predicate Compared(prev: map<string, ToolDefinition>, curr: map<string, ToolDefinition>, todo: set<string>,
                           changed: set<ToolChange>)
  {
    && (forall n :: n in prev && n in curr && n !in todo ==> !Compare(prev[n], curr[n]).TypeFault?)
    && (forall c :: c in changed <==>
         c.name in prev && c.name in curr && c.name !in todo && Compare(prev[c.name], curr[c.name]) == Differs(c))
  }

  lemma ComparedStep(prev: map<string, ToolDefinition>, curr: map<string, ToolDefinition>, todo: set<string>,
                     changed: set<ToolChange>, n: string)
    requires Compared(prev, curr, todo, changed) && n in todo && n in prev && n in curr && curr[n].name == n
    requires !Compare(prev[n], curr[n]).TypeFault?
    ensures var verdict := Compare(prev[n], curr[n]);
      Compared(prev, curr, todo - {n}, if verdict.Differs? then changed + {verdict.change} else changed)
  {
    ChangeNamed(prev[n], curr[n]);
  }

  /** The definitions of the names only the first list has. */
  function Without(defs: map<string, ToolDefinition>, others: map<string, ToolDefinition>): (r: set<ToolDefinition>)
    requires forall n :: n in defs ==> defs[n].name == n
    ensures forall t :: t in r <==> t.name in defs && t.name !in others && t == defs[t.name]
  {
    set n | n in defs && n !in others :: defs[n]
  }

  lemma ChangeNamed(prev: ToolDefinition, curr: ToolDefinition)
    ensures Compare(prev, curr).Differs? ==> Compare(prev, curr).change.name == curr.name
  {
  }

  /** Names split into added, removed and common; only common ones are compared. */
  method DiffTools(previous: seq<ToolDefinition>, current: seq<ToolDefinition>) returns (diff: Option<ToolDifference>)
    ensures diff.None? <==> exists n :: n in ByName(previous) && n in ByName(current)
                                        && Compare(ByName(previous)[n], ByName(current)[n]).TypeFault?
    ensures diff.Some? ==>
      var prev, curr, d := ByName(previous), ByName(current), diff.value;
      && (forall t :: t in d.added <==> t.name in curr && t.name !in prev && t == curr[t.name])
      && (forall t :: t in d.removed <==> t.name in prev && t.name !in curr && t == prev[t.name])
      && (forall c :: c in d.changed <==>
            c.name in prev && c.name in curr && Compare(prev[c.name], curr[c.name]) == Differs(c))
  {
    var prev, curr := ByName(previous), ByName(current);
    var added := Without(curr, prev);
    var removed := Without(prev, curr);
    var changed: set<ToolChange> := {};
    var todo := prev.Keys * curr.Keys;
    while todo != {}
      invariant todo <= prev.Keys * curr.Keys
      invariant Compared(prev, curr, todo, changed)
      decreases |todo|
    {
      var name :| name in todo;
      var comparison := CompareToolDefinitions(prev[name], curr[name]);
      if comparison.TypeFault? {
        return None;
      }
      ComparedStep(prev, curr, todo, changed, name);
      if comparison.Differs? {
        changed := changed + {comparison.change};
      }
      todo := todo - {name};
    }
    return Some(ToolDifference(added, removed, changed));
  }
}
