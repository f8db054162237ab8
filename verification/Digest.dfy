/** The digest that ties a capability mapping to one version of a tool's schema
    (api/services/capability_service.py). SHA-256 is taken as injective: a digest is its pre-image. */
module Digest {
  import opened Options
  import opened Json
  import opened JsonSuffix
  import opened Sorting

  /** A JSON Schema document; Python's `dict`. */
  type Schema = map<string, Json>

  datatype Digest = Sha256(preimage: string)

  function DumpSchema(schema: Schema): string {
    Render(Obj(schema))
  }

  function DumpOutput(output: Option<Schema>): string {
    match output
    case None => Render(Null)
    case Some(schema) => DumpSchema(schema)
  }

  /** Name and schemas run together with no separator. */
  function Preimage(name: string, input: Schema, output: Option<Schema>): string {
    name + DumpSchema(input) + DumpOutput(output)
  }

  function ComputeToolDigest(name: string, input: Schema, output: Option<Schema>): Digest {
    Sha256(Preimage(name, input, output))
  }

  /** Two ways to cut one text: the later cut's tail is part of the earlier one's. */
  lemma Overlap(a: string, u: string, b: string, v: string)
    requires a + u == b + v && |a| <= |b|
    ensures b == a + b[|a|..] && u == b[|a|..] + v
  {
    var whole := a + u;
    assert a == whole[..|a|] && b == whole[..|b|];
    assert u == whole[|a|..] && v == whole[|b|..];
    assert whole[|a|..] == whole[|a|..|b|] + whole[|b|..];
    assert b[|a|..] == whole[|a|..|b|];
  }

  lemma TailsAlign(a: string, s: Schema, b: string, t: Schema)
    requires a + DumpSchema(s) == b + DumpSchema(t) && |a| <= |b|
    ensures a == b && s == t
  {
    var extra := b[|a|..];
    Overlap(a, DumpSchema(s), b, DumpSchema(t));
    NoProperSuffix(Obj(s), extra, Obj(t));
    assert b == a && DumpSchema(s) == DumpSchema(t);
    RenderInjective(Obj(s), Obj(t));
  }

  /** What precedes a schema at the end of a text, and the schema itself, are both determined. */
  lemma LastSchema(a: string, s: Schema, b: string, t: Schema)
    requires a + DumpSchema(s) == b + DumpSchema(t)
    ensures a == b && s == t
  {
    if |a| <= |b| {
      TailsAlign(a, s, b, t);
    } else {
      TailsAlign(b, t, a, s);
    }
  }

  lemma LastChar(a: string, output: Option<Schema>)
    ensures a + DumpOutput(output) != []
    ensures (a + DumpOutput(output))[|a + DumpOutput(output)| - 1] == if output.Some? then '}' else 'l'
  {
    if output.Some? {
      var o := Obj(output.value);
      assert DumpOutput(output) == "{" + RenderFields(o, Keys(o)) + "}";
    }
  }

  lemma LastOutput(a: string, s: Option<Schema>, b: string, t: Option<Schema>)
    requires a + DumpOutput(s) == b + DumpOutput(t)
    ensures a == b && s == t
  {
    LastChar(a, s);
    LastChar(b, t);
    if s.Some? {
      LastSchema(a, s.value, b, t.value);
    } else {
      assert |a| == |b|;
      SplitAt(a, "null", b, "null");
    }
  }

  /** The pre-image determines the tool's name and both its schemas, up to the order of keys. */
  lemma PreimageDecodable(name: string, input: Schema, output: Option<Schema>,
                          name': string, input': Schema, output': Option<Schema>)
    requires Preimage(name, input, output) == Preimage(name', input', output')
    ensures name == name' && input == input' && output == output'
  {
    LastOutput(name + DumpSchema(input), output, name' + DumpSchema(input'), output');
    LastSchema(name, input, name', input');
  }

  lemma DigestDeterminesTool(name: string, input: Schema, output: Option<Schema>,
                             name': string, input': Schema, output': Option<Schema>)
    ensures (name == name' && input == input' && output == output') <==>
      ComputeToolDigest(name, input, output) == ComputeToolDigest(name', input', output')
  {
    if ComputeToolDigest(name, input, output) == ComputeToolDigest(name', input', output') {
      PreimageDecodable(name, input, output, name', input', output');
    }
  }

  lemma OneKey(key: string, value: Json)
    ensures Render(Obj(map[key := value])) == "{" + FieldText(key, value) + "}"
  {
    var o := Obj(map[key := value]);
    assert Elements([key]) == o.fields.Keys;
    RenderIs(o, [key]);
    OneField(o, key);
  }

  lemma OneLetter(c: char)
    requires 'a' <= c <= 'z'
    ensures Quote([c]) == ['\"', c, '\"']
  {
    assert [c][1..] == [] && EscapeAll([]) == [];
    assert EscapeAll([c]) == [c];
  }

  lemma LetterKey(key: char, value: Json, text: string)
    requires 'a' <= key <= 'z' && Render(value) == text
    ensures DumpSchema(map[[key] := value]) == "{\"" + [key] + "\":" + text + "}"
  {
    OneKey([key], value);
    OneLetter(key);
    Glue(key, text);
  }

  lemma Glue(key: char, text: string)
    ensures "{" + (['\"', key, '\"'] + ":" + text) + "}" == "{\"" + [key] + "\":" + text + "}"
  {
  }

  lemma EmptyArray()
    ensures Render(Arr([])) == "[]"
  {
    assert RenderItems(Arr([]), 0) == "";
  }

  lemma PreimageParts(name: string, input: Schema, output: Option<Schema>, i: string, o: string)
    requires DumpSchema(input) == i && DumpOutput(output) == o
    ensures Preimage(name, input, output) == name + i + o
  {
  }

  lemma LetterKeys()
    ensures DumpSchema(map["c" := Str("d")]) == "{\"c\":\"d\"}"
    ensures DumpSchema(map["e" := Arr([])]) == "{\"e\":[]}"
  {
    OneLetter('d');
    LetterKey('c', Str("d"), "\"d\"");
    EmptyArray();
    LetterKey('e', Arr([]), "[]");
    assert "{\"" + ['c'] + "\":" + "\"d\"" + "}" == "{\"c\":\"d\"}";
    assert "{\"" + ['e'] + "\":" + "[]" + "}" == "{\"e\":[]}";
  }

  /** The pre-image is the name, the input schema and the output schema or `null`, in this order: for
      example `ab{"c":"d"}null` and `ab{"c":"d"}{"e":[]}`. */
  lemma PreimageText()
    ensures Preimage("ab", map["c" := Str("d")], None) == "ab" + "{\"c\":\"d\"}" + "null"
    ensures Preimage("ab", map["c" := Str("d")], Some(map["e" := Arr([])])) ==
      "ab" + "{\"c\":\"d\"}" + "{\"e\":[]}"
  {
    LetterKeys();
    PreimageParts("ab", map["c" := Str("d")], None, "{\"c\":\"d\"}", "null");
    PreimageParts("ab", map["c" := Str("d")], Some(map["e" := Arr([])]), "{\"c\":\"d\"}", "{\"e\":[]}");
  }
}
