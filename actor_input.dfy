/**
 * The input checks shared by the actors: `validateRequiredFields`, which collects the
 * required fields that are absent, `null` or the empty string and fails naming them, and
 * `createActorInput`, which rejects a missing input or a missing API key.
 *
 * The input object is a parsed JSON object, read by property access. Reading the input from
 * the platform is I/O, so `createActorInput` takes what the platform returned as a parameter.
 */
module ActorInput {
  import opened Wrappers
  import opened Text
  import opened Entries
  import opened JsValue

  const MissingFieldsPrefix: string := "Missing required fields: "
  const NoInputProvided: string := "No input provided"
  const ApiKeyRequired: string := "apiKey is required. Get your API key from https://scrappa.co"

  /** `value === undefined || value === null || value === ''`; `0` and `false` are present. */
  predicate IsMissing(value: Option<Json>)
  {
    value.None? || value.value == JNull || value.value == JStr("")
  }

  /** The names the loop pushes onto `missing`, in the order of `fields`, once per occurrence. */
  function MissingFields(input: seq<Entry<Json>>, fields: seq<string>): (r: seq<string>)
    ensures |r| <= |fields|
    ensures forall k | 0 <= k < |r| :: r[k] in fields && IsMissing(Lookup(input, r[k]))
  {
    if fields == [] then []
    else
      var front := MissingFields(input, fields[..|fields| - 1]);
      var f := fields[|fields| - 1];
      assert forall k | 0 <= k < |front| :: front[k] in fields[..|fields| - 1];
      if IsMissing(Lookup(input, f)) then front + [f] else front
  }

  /** `sub` is `s` with some elements left out, the rest in their order. */
  predicate IsSubsequence(sub: seq<string>, s: seq<string>)
    decreases |s|
  {
    if sub == [] then true
    else if s == [] then false
    else if sub[|sub| - 1] == s[|s| - 1] then IsSubsequence(sub[..|sub| - 1], s[..|s| - 1])
    else IsSubsequence(sub, s[..|s| - 1])
  }

  /**
   * The missing names are exactly the occurrences of missing fields: a subsequence of the
   * required fields that holds every occurrence of a missing field and nothing else.
   */
  lemma {:induction false} MissingFieldsCharacterized(input: seq<Entry<Json>>, fields: seq<string>, f: string)
    ensures IsSubsequence(MissingFields(input, fields), fields)
    ensures multiset(MissingFields(input, fields))[f]
         == if IsMissing(Lookup(input, f)) then multiset(fields)[f] else 0
  {
    if fields != [] {
      var init := fields[..|fields| - 1];
      var last := fields[|fields| - 1];
      var front := MissingFields(input, init);
      MissingFieldsCharacterized(input, init, f);
      assert fields == init + [last];
      assert multiset(fields) == multiset(init) + multiset{last};
      if IsMissing(Lookup(input, last)) {
        assert MissingFields(input, fields) == front + [last];
        assert multiset(front + [last]) == multiset(front) + multiset{last};
        SubsequenceExtendBoth(front, init, last);
      } else {
        assert MissingFields(input, fields) == front;
        SubsequenceExtendOther(front, init, last);
      }
    }
  }

  /** Appending an element the subsequence does not hold keeps it a subsequence. */
  lemma SubsequenceExtendOther(sub: seq<string>, s: seq<string>, x: string)
    requires IsSubsequence(sub, s) && x !in sub
    ensures IsSubsequence(sub, s + [x])
  {
    assert (s + [x])[..|s|] == s;
    if sub != [] {
      assert sub[|sub| - 1] in sub;
    }
  }

  /** Appending the same element to both keeps a subsequence a subsequence. */
  lemma SubsequenceExtendBoth(sub: seq<string>, s: seq<string>, x: string)
    requires IsSubsequence(sub, s)
    ensures IsSubsequence(sub + [x], s + [x])
  {
    assert (s + [x])[..|s|] == s;
    assert (sub + [x])[..|sub|] == sub;
  }

  /** Nothing is missing exactly when every required field is present. */
  lemma {:induction false} NoneMissing(input: seq<Entry<Json>>, fields: seq<string>)
    ensures MissingFields(input, fields) == [] <==> forall i | 0 <= i < |fields| :: !IsMissing(Lookup(input, fields[i]))
  {
    if fields != [] {
      var init := fields[..|fields| - 1];
      NoneMissing(input, init);
      assert forall i | 0 <= i < |init| :: init[i] == fields[i];
    }
  }

  /**
   * `validateRequiredFields`: the loop over `requiredFields`, then the throw when anything
   * is missing. The input is a value, so the check cannot change it.
   */
  method ValidateRequiredFields(input: seq<Entry<Json>>, requiredFields: seq<string>)
    returns (result: Result<(), string>)
    ensures result.Ok? <==> forall i | 0 <= i < |requiredFields| :: !IsMissing(Lookup(input, requiredFields[i]))
    ensures result.Err? ==>
      && MissingFields(input, requiredFields) != []
      && result.error == MissingFieldsPrefix + Join(MissingFields(input, requiredFields), ", ")
  {
    var missing: seq<string> := [];
    var i := 0;
    while i < |requiredFields|
      invariant 0 <= i <= |requiredFields|
      invariant missing == MissingFields(input, requiredFields[..i])
    {
      var field := requiredFields[i];
      var value := Lookup(input, field);  // `input[field]`
      if IsMissing(value) {
        missing := missing + [field];
      }
      assert requiredFields[..i + 1][..i] == requiredFields[..i];
      i := i + 1;
    }
    assert requiredFields[..i] == requiredFields;
    NoneMissing(input, requiredFields);
    if |missing| > 0 {
      result := Err(MissingFieldsPrefix + Join(missing, ", "));
    } else {
      result := Ok(());
    }
  }

  /** A field holding `0` or `false` counts as present. */
  lemma ZeroAndFalseArePresent(input: seq<Entry<Json>>, field: string)
    requires Lookup(input, field) == Some(JNum(0)) || Lookup(input, field) == Some(JBool(false))
    ensures MissingFields(input, [field]) == []
  {
    assert [field][..0] == [];
  }

  /**
   * `createActorInput` on what `Actor.getInput` returned (`None` when there is no input):
   * a falsy input fails first, then an input whose `apiKey` is absent or falsy; anything
   * else is returned as it is.
   */
  function CreateActorInput(input: Option<Json>): (r: Result<Json, string>)
    ensures r.Err? <==>
      || input.None?
      || !Truthy(input.value)
      || (var key := Field(input.value, "apiKey"); key.None? || !Truthy(key.value))
    ensures r.Err? ==> r.error == (if input.None? || !Truthy(input.value) then NoInputProvided else ApiKeyRequired)
    ensures r.Ok? ==> input == Some(r.value)
  {
    if input.None? || !Truthy(input.value) then Err(NoInputProvided)
    else
      var key := Field(input.value, "apiKey");
      if key.None? || !Truthy(key.value) then Err(ApiKeyRequired)
      else Ok(input.value)
  }

  /**
   * An accepted input is an object whose `apiKey` is present in the sense of
   * `validateRequiredFields` too, so checking it as a required field afterwards passes.
   */
  lemma AcceptedInputHasApiKey(input: Option<Json>)
    requires CreateActorInput(input).Ok?
    ensures CreateActorInput(input).value.JObj?
    ensures MissingFields(CreateActorInput(input).value.fields, ["apiKey"]) == []
  {
    var fields := ["apiKey"];
    assert fields[..0] == [];
  }
}
