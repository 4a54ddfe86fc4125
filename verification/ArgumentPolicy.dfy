/**
 The argument policy: rules that the arguments of a call must satisfy, each about the value that
 a JSON pointer selects.
 */
module ArgumentPolicy {
  import opened Common
  import opened JsonPointers
  import opened Decimals
  import opened Texts

  // ---------------------------------------------------------------------------
  // Comparing JSON values
  // ---------------------------------------------------------------------------

  predicate IsNumber(value: Json) {
    value.Int? || value.Float?
  }

  function Number(value: Json): real
    requires IsNumber(value)
  {
    if value.Int? then value.number as real else value.fraction
  }

  /** Structural equality in which integers and floats are one type and booleans another. */
  predicate SameJson(left: Json, right: Json)
    decreases left
  {
    match (left, right)
    case (Object(a), Object(b)) => a.Keys == b.Keys && forall k :: k in a.Keys ==> SameJson(a[k], b[k])
    case (List(a), List(b)) => |a| == |b| && forall i :: 0 <= i < |a| ==> SameJson(a[i], b[i])
    case _ => if IsNumber(left) && IsNumber(right) then Number(left) == Number(right) else left == right
  }

  /** The value with every number written as a float. */
  function Normal(value: Json): Json {
    match value
    case Int(n) => Float(n as real)
    case List(items) => List(seq(|items|, i requires 0 <= i < |items| => Normal(items[i])))
    case Object(members) => Object(map k | k in members :: Normal(members[k]))
    case _ => value
  }

  lemma {:induction false} SameIffNormal(left: Json, right: Json)
    ensures SameJson(left, right) <==> Normal(left) == Normal(right)
    decreases left
  {
    match (left, right)
    case (Object(a), Object(b)) => SameObjects(left, right);
    case (List(a), List(b)) => SameLists(left, right);
    case _ =>
  }

  lemma {:induction false} SameLists(left: Json, right: Json)
    requires left.List? && right.List?
    ensures SameJson(left, right) <==> Normal(left) == Normal(right)
    decreases left, 0
  {
    var a, b := left.items, right.items;
    var na, nb := Normal(left).items, Normal(right).items;
    assert |na| == |a| && |nb| == |b|;
    if |a| == |b| {
      forall i | 0 <= i < |a| ensures SameJson(a[i], b[i]) <==> na[i] == nb[i] {
        SameIffNormal(a[i], b[i]);
      }
      assert na == nb <==> forall i :: 0 <= i < |a| ==> na[i] == nb[i];
    }
  }

  lemma {:induction false} SameObjects(left: Json, right: Json)
    requires left.Object? && right.Object?
    ensures SameJson(left, right) <==> Normal(left) == Normal(right)
    decreases left, 0
  {
    var a, b := left.members, right.members;
    var na, nb := Normal(left).members, Normal(right).members;
    assert na.Keys == a.Keys && nb.Keys == b.Keys;
    if a.Keys == b.Keys {
      forall k | k in a.Keys ensures SameJson(a[k], b[k]) <==> na[k] == nb[k] {
        SameIffNormal(a[k], b[k]);
      }
      assert na == nb <==> forall k :: k in a.Keys ==> na[k] == nb[k];
    }
  }

  /** The comparison is an equivalence, so an allow-list means the same whichever spelling it holds. */
  lemma SameJsonIsEquivalence(a: Json, b: Json, c: Json)
    ensures SameJson(a, a)
    ensures SameJson(a, b) ==> SameJson(b, a)
    ensures SameJson(a, b) && SameJson(b, c) ==> SameJson(a, c)
  {
    SameIffNormal(a, a);
    SameIffNormal(a, b);
    SameIffNormal(b, a);
    SameIffNormal(b, c);
    SameIffNormal(a, c);
  }

  // ---------------------------------------------------------------------------
  // Following a pointer
  // ---------------------------------------------------------------------------

  lemma PathFront(value: Json, keys: seq<string>)
    requires keys != []
    ensures Selected(value, keys) ==
      match Entered(value, keys[0])
      case None => None
      case Some(step) =>
        match Child(value, step)
        case None => None
        case Some(inner) => Selected(inner, keys[1..])
  {
  }

  lemma DecodeAllFrom(parts: seq<string>, i: nat)
    requires i < |parts|
    ensures DecodeAll(parts[i..]) == [Decode(parts[i])] + DecodeAll(parts[i + 1..])
  {
  }

  /** `_at_pointer`: walks down one part at a time. */
  method AtPointer(arguments: Json, pointer: string) returns (found: Option<Json>)
    ensures found == Selected(arguments, Keys(pointer))
  {
    var parts := [];
    if pointer != "" {
      parts := Split(pointer, '/')[1..];
    }
    found := Some(arguments);
    for i := 0 to |parts|
      invariant DecodeAll(parts) == Keys(pointer)
      invariant Selected(arguments, Keys(pointer))
        == match found case None => None case Some(v) => Selected(v, DecodeAll(parts[i..]))
    {
      DecodeAllFrom(parts, i);
      var key := Decode(parts[i]);
      if found.Some? {
        PathFront(found.value, DecodeAll(parts[i..]));
        assert DecodeAll(parts[i..])[1..] == DecodeAll(parts[i + 1..]);
      }
      if found.Some? && found.value.Object? {
        found := if key in found.value.members then Some(found.value.members[key]) else None;
      } else if found.Some? && found.value.List? && Canonical(key) && |key| <= MAX_INDEX_DIGITS {
        var index := Value(key);
        found := if index < |found.value.items| then Some(found.value.items[index]) else None;
      } else {
        return None;
      }
    }
    assert parts[|parts|..] == [];
  }

  // ---------------------------------------------------------------------------
  // Rules
  // ---------------------------------------------------------------------------

  datatype Operator =
    | Equals(expected: Json)
    | AllowedValues(values: seq<Json>)
    | NumberRange(minimum: Option<Json>, maximum: Option<Json>)
    | StringPrefix(prefix: string)

  datatype Rule = Rule(id: string, pointer: string, operator: Operator)

  datatype Policy = Policy(enabled: bool, rules: seq<Rule>)

  datatype Verdict = Pass | Denied(rule: Rule, missing: bool)

  /** A bound that a stored rule may carry. */
  predicate BoundOk(bound: Option<Json>) {
    bound.Some? ==> IsNumber(bound.value)
  }

  predicate OperatorOk(operator: Operator) {
    operator.NumberRange? ==> BoundOk(operator.minimum) && BoundOk(operator.maximum)
  }

  predicate PolicyOk(policy: Policy) {
    forall i :: 0 <= i < |policy.rules| ==> OperatorOk(policy.rules[i].operator)
  }

  /** What a rule demands, read off the normal form of the value. */
  ghost predicate Demands(operator: Operator, value: Json)
    requires OperatorOk(operator)
  {
    match operator
    case Equals(expected) => Normal(value) == Normal(expected)
    case AllowedValues(values) => exists i :: 0 <= i < |values| && Normal(values[i]) == Normal(value)
    case NumberRange(minimum, maximum) =>
      && IsNumber(value)
      && (minimum.Some? ==> Number(minimum.value) <= Number(value))
      && (maximum.Some? ==> Number(value) <= Number(maximum.value))
    case StringPrefix(prefix) => exists rest: string :: value == Str(prefix + rest)
  }

  /** A rule holds of the arguments: its pointer selects a value that meets its demand. */
  ghost predicate Satisfied(rule: Rule, arguments: Json)
    requires OperatorOk(rule.operator)
  {
    var found := Selected(arguments, Keys(rule.pointer));
    found.Some? && Demands(rule.operator, found.value)
  }

  method Meets(operator: Operator, value: Json) returns (allowed: bool)
    requires OperatorOk(operator)
    ensures allowed <==> Demands(operator, value)
  {
    match operator
    case Equals(expected) =>
      SameIffNormal(value, expected);
      allowed := SameJson(value, expected);
    case AllowedValues(values) =>
      allowed := false;
      for i := 0 to |values|
        invariant allowed <==> exists j :: 0 <= j < i && Normal(values[j]) == Normal(value)
      {
        SameIffNormal(value, values[i]);
        allowed := allowed || SameJson(value, values[i]);
      }
    case NumberRange(minimum, maximum) =>
      allowed := IsNumber(value)
        && (minimum.None? || Number(value) >= Number(minimum.value))
        && (maximum.None? || Number(value) <= Number(maximum.value));
    case StringPrefix(prefix) =>
      allowed := value.Str? && prefix <= value.text;
      if allowed {
        assert value == Str(prefix + value.text[|prefix|..]);
      }
  }

  /** One rule: whether it holds, and whether its value is missing. */
  method CheckRule(rule: Rule, arguments: Json) returns (allowed: bool, missing: bool)
    requires OperatorOk(rule.operator)
    ensures allowed <==> Satisfied(rule, arguments)
    ensures missing <==> Selected(arguments, Keys(rule.pointer)).None?
  {
    var found := AtPointer(arguments, rule.pointer);
    allowed, missing := false, found.None?;
    if found.Some? {
      allowed := Meets(rule.operator, found.value);
    }
  }

  /**
   `check_policy`: a call passes exactly when the policy is off or every rule holds, and a denial
   names the first rule that fails and whether its value was missing.
   */
  method CheckPolicy(policy: Policy, arguments: Json) returns (verdict: Verdict)
    requires PolicyOk(policy)
    ensures verdict == Pass <==>
      !policy.enabled || forall i :: 0 <= i < |policy.rules| ==> Satisfied(policy.rules[i], arguments)
    ensures verdict.Denied? ==> exists i ::
      && 0 <= i < |policy.rules|
      && verdict.rule == policy.rules[i]
      && !Satisfied(policy.rules[i], arguments)
      && (forall j :: 0 <= j < i ==> Satisfied(policy.rules[j], arguments))
    ensures verdict.Denied? ==> (verdict.missing <==> Selected(arguments, Keys(verdict.rule.pointer)).None?)
  {
    if !policy.enabled {
      return Pass;
    }
    for i := 0 to |policy.rules|
      invariant forall j :: 0 <= j < i ==> Satisfied(policy.rules[j], arguments)
    {
      var allowed, missing := CheckRule(policy.rules[i], arguments);
      if !allowed {
        return Denied(policy.rules[i], missing);
      }
    }
    return Pass;
  }
}
