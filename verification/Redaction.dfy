/**
  The recursive redactor of the support bundle. What its regular expressions recognise is a
  parameter; the results say exactly what the redacted tree still tells about the original.
 */
module Redaction {
  datatype Value =
    | Text(text: string)
    | Scalar(code: int)            // numbers, booleans and None
    | Dict(fields: seq<Field>)
    | List(items: seq<Value>)
    | Tuple(items: seq<Value>)

  datatype Field = Field(key: string, value: Value)

  datatype Policy = Policy(
    secretKey: string -> bool,
    envKey: string -> bool,
    headerKey: string -> bool,
    secretFlag: string -> bool,
    reference: string -> bool,     // `$VAR` or `${VAR}`, blanks around it ignored
    redactText: string -> string)

  const MASK := "<redacted>"

  predicate IsFlag(p: Policy, v: Value) {
    v.Text? && p.secretFlag(v.text)
  }

  function Redacted(p: Policy, v: Value): Value
    decreases v, 1
  {
    match v
    case Text(text) => Text(p.redactText(text))
    case Scalar(_) => v
    case Dict(fields) => Dict(RedactedFields(p, fields))
    case List(items) => List(RedactedItems(p, items, false))
    case Tuple(items) => List(RedactedItems(p, items, false))
  }

  function RedactedField(p: Policy, f: Field): Field
    decreases f, 1
  {
    if p.secretKey(f.key) then Field(f.key, Text(MASK))
    else if p.envKey(f.key) && f.value.Dict? then Field(f.key, Dict(RedactedEnv(p, f.value.fields)))
    else if p.headerKey(f.key) && f.value.Dict? then Field(f.key, Dict(MaskedAll(f.value.fields)))
    else Field(f.key, Redacted(p, f.value))
  }

  function RedactedFields(p: Policy, fields: seq<Field>): seq<Field>
    decreases fields, 0
  {
    if fields == [] then [] else [RedactedField(p, fields[0])] + RedactedFields(p, fields[1..])
  }

  function RedactedEnvValue(p: Policy, v: Value): Value
    decreases v, 2
  {
    if v.Text? && p.reference(v.text) then v
    else if v.Dict? || v.List? || v.Tuple? then Redacted(p, v)
    else Text(MASK)
  }

  function RedactedEnv(p: Policy, fields: seq<Field>): seq<Field>
    decreases fields, 0
  {
    if fields == [] then []
    else [Field(fields[0].key, RedactedEnvValue(p, fields[0].value))] + RedactedEnv(p, fields[1..])
  }

  function MaskedAll(fields: seq<Field>): seq<Field> {
    if fields == [] then [] else [Field(fields[0].key, Text(MASK))] + MaskedAll(fields[1..])
  }

  /** A string after a secret flag is masked; the flag itself stays. */
  function RedactedItems(p: Policy, items: seq<Value>, maskNext: bool): seq<Value>
    decreases items, 0
  {
    if items == [] then []
    else if maskNext then
      [if items[0].Text? then Text(MASK) else Redacted(p, items[0])] + RedactedItems(p, items[1..], false)
    else if IsFlag(p, items[0]) then [items[0]] + RedactedItems(p, items[1..], true)
    else [Redacted(p, items[0])] + RedactedItems(p, items[1..], false)
  }

  // The source's loops

  /** The loop over a mapping has dealt with the first `i` fields. */
  predicate FieldsTo(p: Policy, fields: seq<Field>, done: seq<Field>, i: nat)
    requires i <= |fields|
  {
    done + RedactedFields(p, fields[i..]) == RedactedFields(p, fields)
  }

  lemma NextField(p: Policy, fields: seq<Field>, done: seq<Field>, i: nat)
    requires i < |fields| && FieldsTo(p, fields, done, i)
    ensures FieldsTo(p, fields, done + [RedactedField(p, fields[i])], i + 1)
  {
    var rest := fields[i..];
    assert rest[0] == fields[i] && rest[1..] == fields[i + 1..];
    assert RedactedFields(p, rest) == [RedactedField(p, fields[i])] + RedactedFields(p, fields[i + 1..]);
  }

  /** The same for the loop over an env mapping. */
  predicate EnvTo(p: Policy, fields: seq<Field>, done: seq<Field>, i: nat)
    requires i <= |fields|
  {
    done + RedactedEnv(p, fields[i..]) == RedactedEnv(p, fields)
  }

  lemma NextEnv(p: Policy, fields: seq<Field>, done: seq<Field>, i: nat)
    requires i < |fields| && EnvTo(p, fields, done, i)
    ensures EnvTo(p, fields, done + [Field(fields[i].key, RedactedEnvValue(p, fields[i].value))], i + 1)
  {
    var rest := fields[i..];
    assert rest[0] == fields[i] && rest[1..] == fields[i + 1..];
    assert RedactedEnv(p, rest)
        == [Field(fields[i].key, RedactedEnvValue(p, fields[i].value))] + RedactedEnv(p, fields[i + 1..]);
  }

  method RedactData(p: Policy, v: Value) returns (r: Value)
    ensures r == Redacted(p, v)
    decreases v, 1
  {
    match v
    case Dict(fields) =>
      var redacted: seq<Field> := [];
      for i := 0 to |fields|
        invariant FieldsTo(p, fields, redacted, i)
      {
        var f := fields[i];
        NextField(p, fields, redacted, i);
        var item: Value;
        if p.secretKey(f.key) {
          item := Text(MASK);
        } else if p.envKey(f.key) && f.value.Dict? {
          item := RedactEnv(p, f.value.fields);
        } else if p.headerKey(f.key) && f.value.Dict? {
          item := Dict(MaskedAll(f.value.fields));
        } else {
          item := RedactData(p, f.value);
        }
        redacted := redacted + [Field(f.key, item)];
      }
      r := Dict(redacted);
    case List(items) =>
      r := RedactSecretFlagList(p, items);
    case Tuple(items) =>
      r := RedactSecretFlagList(p, items);
    case Text(text) =>
      r := Text(p.redactText(text));
    case Scalar(_) =>
      r := v;
  }

  method RedactEnv(p: Policy, fields: seq<Field>) returns (r: Value)
    ensures r == Dict(RedactedEnv(p, fields))
    decreases fields, 0
  {
    var redacted: seq<Field> := [];
    for i := 0 to |fields|
      invariant EnvTo(p, fields, redacted, i)
    {
      var v := fields[i].value;
      NextEnv(p, fields, redacted, i);
      var item := Text(MASK);
      if v.Text? && p.reference(v.text) {
        item := v;
      } else if v.Dict? || v.List? || v.Tuple? {
        item := RedactData(p, v);
      }
      redacted := redacted + [Field(fields[i].key, item)];
    }
    r := Dict(redacted);
  }

  method RedactSecretFlagList(p: Policy, items: seq<Value>) returns (r: Value)
    ensures r == List(RedactedItems(p, items, false))
    decreases items, 0
  {
    var redacted: seq<Value> := [];
    var maskNext := false;
    for i := 0 to |items|
      invariant redacted + RedactedItems(p, items[i..], maskNext) == RedactedItems(p, items, false)
    {
      var item := items[i];
      assert items[i..][1..] == items[i + 1..];
      if maskNext {
        var next := Text(MASK);
        if !item.Text? {
          next := RedactData(p, item);
        }
        redacted := redacted + [next];
        maskNext := false;
        continue;
      }
      if IsFlag(p, item) {
        redacted := redacted + [item];
        maskNext := true;
        continue;
      }
      var next := RedactData(p, item);
      redacted := redacted + [next];
    }
    r := List(redacted);
  }

  // What the redacted tree still tells

  /** The mask is not a reference, and redacting a text that is no secret flag does not make one. */
  ghost predicate Sound(p: Policy) {
    !p.reference(MASK) && forall t :: !p.secretFlag(t) ==> !p.secretFlag(p.redactText(t))
  }

  predicate Container(v: Value) {
    v.Dict? || v.List? || v.Tuple?
  }

  /**
    The trees differ only in what is hidden: values under secret keys, env values that are no
    reference, header values, strings after a secret flag, what `redactText` hides inside a text,
    and whether a sequence is a list or a tuple.
   */
  predicate Alike(p: Policy, v: Value, w: Value)
    decreases v, 1
  {
    match v
    case Text(text) => w.Text? && p.redactText(text) == p.redactText(w.text)
    case Scalar(_) => w == v
    case Dict(fields) => w.Dict? && AlikeFields(p, fields, w.fields)
    case List(items) => (w.List? || w.Tuple?) && AlikeItems(p, items, w.items, false)
    case Tuple(items) => (w.List? || w.Tuple?) && AlikeItems(p, items, w.items, false)
  }

  predicate AlikeFields(p: Policy, f: seq<Field>, g: seq<Field>)
    decreases f, 0
  {
    if f == [] || g == [] then f == g
    else AlikeField(p, f[0], g[0]) && AlikeFields(p, f[1..], g[1..])
  }

  predicate AlikeField(p: Policy, f: Field, g: Field)
    decreases f, 1
  {
    f.key == g.key &&
    (p.secretKey(f.key) ||
     if (p.envKey(f.key) || p.headerKey(f.key)) && f.value.Dict? && g.value.Dict? then
       (if p.envKey(f.key) then AlikeEnv(p, f.value.fields, g.value.fields)
        else SameKeys(f.value.fields, g.value.fields))
     else Alike(p, f.value, g.value))
  }

  predicate AlikeEnv(p: Policy, f: seq<Field>, g: seq<Field>)
    decreases f, 0
  {
    if f == [] || g == [] then f == g
    else
      && f[0].key == g[0].key
      && AlikeEnvValue(p, f[0].value, g[0].value)
      && AlikeEnv(p, f[1..], g[1..])
  }

  predicate AlikeEnvValue(p: Policy, v: Value, w: Value)
    decreases v, 2
  {
    if Container(v) then Container(w) && Alike(p, v, w)
    else if v.Text? && p.reference(v.text) then w == v
    else !Container(w) && !(w.Text? && p.reference(w.text))
  }

  predicate SameKeys(f: seq<Field>, g: seq<Field>) {
    if f == [] || g == [] then f == g
    else f[0].key == g[0].key && SameKeys(f[1..], g[1..])
  }

  predicate AlikeItems(p: Policy, x: seq<Value>, y: seq<Value>, maskNext: bool)
    decreases x, 0
  {
    if x == [] || y == [] then x == y
    else if maskNext then
      (if x[0].Text? then y[0].Text? else Alike(p, x[0], y[0])) && AlikeItems(p, x[1..], y[1..], false)
    else if IsFlag(p, x[0]) then y[0] == x[0] && AlikeItems(p, x[1..], y[1..], true)
    else !IsFlag(p, y[0]) && Alike(p, x[0], y[0]) && AlikeItems(p, x[1..], y[1..], false)
  }

  lemma SameTail<T>(a: T, x: seq<T>, b: T, y: seq<T>)
    ensures [a] + x == [b] + y <==> a == b && x == y
  {
    if [a] + x == [b] + y {
      assert ([a] + x)[0] == a && ([b] + y)[0] == b;
      assert ([a] + x)[1..] == x && ([b] + y)[1..] == y;
    }
  }

  /** Two trees redact to the same tree exactly when they differ only in what is hidden. */
  lemma {:induction false} HidesExactly(p: Policy, v: Value, w: Value)
    requires Sound(p)
    ensures Alike(p, v, w) <==> Redacted(p, v) == Redacted(p, w)
    decreases v, 1
  {
    match v
    case Dict(fields) =>
      if w.Dict? {
        FieldsHideExactly(p, fields, w.fields);
      }
    case List(items) =>
      if w.List? || w.Tuple? {
        ItemsHideExactly(p, items, w.items, false);
      }
    case Tuple(items) =>
      if w.List? || w.Tuple? {
        ItemsHideExactly(p, items, w.items, false);
      }
    case _ =>
  }

  lemma {:induction false} FieldsHideExactly(p: Policy, f: seq<Field>, g: seq<Field>)
    requires Sound(p)
    ensures AlikeFields(p, f, g) <==> RedactedFields(p, f) == RedactedFields(p, g)
    decreases f, 0
  {
    if f != [] && g != [] {
      SameTail(RedactedField(p, f[0]), RedactedFields(p, f[1..]), RedactedField(p, g[0]), RedactedFields(p, g[1..]));
      FieldHidesExactly(p, f[0], g[0]);
      FieldsHideExactly(p, f[1..], g[1..]);
    }
  }

  lemma {:induction false} FieldHidesExactly(p: Policy, f: Field, g: Field)
    requires Sound(p)
    ensures AlikeField(p, f, g) <==> RedactedField(p, f) == RedactedField(p, g)
    decreases f, 1
  {
    if f.key == g.key && !p.secretKey(f.key) {
      if (p.envKey(f.key) || p.headerKey(f.key)) && f.value.Dict? && g.value.Dict? {
        if p.envKey(f.key) {
          EnvHidesExactly(p, f.value.fields, g.value.fields);
        } else {
          HeadersHideExactly(f.value.fields, g.value.fields);
        }
      } else {
        HidesExactly(p, f.value, g.value);
      }
    }
  }

  lemma {:induction false} EnvHidesExactly(p: Policy, f: seq<Field>, g: seq<Field>)
    requires Sound(p)
    ensures AlikeEnv(p, f, g) <==> RedactedEnv(p, f) == RedactedEnv(p, g)
    decreases f, 0
  {
    if f != [] && g != [] {
      var a, b := Field(f[0].key, RedactedEnvValue(p, f[0].value)), Field(g[0].key, RedactedEnvValue(p, g[0].value));
      SameTail(a, RedactedEnv(p, f[1..]), b, RedactedEnv(p, g[1..]));
      EnvValueHidesExactly(p, f[0].value, g[0].value);
      EnvHidesExactly(p, f[1..], g[1..]);
    }
  }

  lemma {:induction false} EnvValueHidesExactly(p: Policy, v: Value, w: Value)
    requires Sound(p)
    ensures AlikeEnvValue(p, v, w) <==> RedactedEnvValue(p, v) == RedactedEnvValue(p, w)
    decreases v, 2
  {
    HidesExactly(p, v, w);
    assert Container(v) ==> !RedactedEnvValue(p, v).Text?;
    assert Container(w) ==> !RedactedEnvValue(p, w).Text?;
  }

  lemma {:induction false} HeadersHideExactly(f: seq<Field>, g: seq<Field>)
    ensures SameKeys(f, g) <==> MaskedAll(f) == MaskedAll(g)
  {
    if f != [] && g != [] {
      SameTail(Field(f[0].key, Text(MASK)), MaskedAll(f[1..]), Field(g[0].key, Text(MASK)), MaskedAll(g[1..]));
      HeadersHideExactly(f[1..], g[1..]);
    }
  }

  lemma {:induction false} ItemsHideExactly(p: Policy, x: seq<Value>, y: seq<Value>, maskNext: bool)
    requires Sound(p)
    ensures AlikeItems(p, x, y, maskNext) <==> RedactedItems(p, x, maskNext) == RedactedItems(p, y, maskNext)
    decreases x, 0
  {
    if x != [] && y != [] {
      var a, b := RedactedItems(p, x, maskNext), RedactedItems(p, y, maskNext);
      SameTail(a[0], a[1..], b[0], b[1..]);
      assert a == [a[0]] + a[1..] && b == [b[0]] + b[1..];
      HidesExactly(p, x[0], y[0]);
      ItemsHideExactly(p, x[1..], y[1..], false);
      ItemsHideExactly(p, x[1..], y[1..], true);
    }
  }

  // Redacting twice

  /** Redacting a redacted tree changes nothing, if redacting a text twice does not. */
  lemma {:induction false} RedactionIsIdempotent(p: Policy, v: Value)
    requires Sound(p) && forall t :: p.redactText(p.redactText(t)) == p.redactText(t)
    ensures Redacted(p, Redacted(p, v)) == Redacted(p, v)
    decreases v, 1
  {
    match v
    case Dict(fields) => FieldsIdempotent(p, fields);
    case List(items) => ItemsIdempotent(p, items, false);
    case Tuple(items) => ItemsIdempotent(p, items, false);
    case _ =>
  }

  lemma {:induction false} FieldsIdempotent(p: Policy, f: seq<Field>)
    requires Sound(p) && forall t :: p.redactText(p.redactText(t)) == p.redactText(t)
    ensures RedactedFields(p, RedactedFields(p, f)) == RedactedFields(p, f)
    decreases f, 0
  {
    if f != [] {
      FieldIdempotent(p, f[0]);
      FieldsIdempotent(p, f[1..]);
      assert RedactedFields(p, f)[1..] == RedactedFields(p, f[1..]);
    }
  }

  lemma {:induction false} FieldIdempotent(p: Policy, f: Field)
    requires Sound(p) && forall t :: p.redactText(p.redactText(t)) == p.redactText(t)
    ensures RedactedField(p, RedactedField(p, f)) == RedactedField(p, f)
    decreases f, 1
  {
    if !p.secretKey(f.key) {
      if p.envKey(f.key) && f.value.Dict? {
        EnvIdempotent(p, f.value.fields);
      } else if p.headerKey(f.key) && f.value.Dict? {
        HeadersIdempotent(f.value.fields);
      } else {
        RedactionIsIdempotent(p, f.value);
      }
    }
  }

  lemma {:induction false} EnvIdempotent(p: Policy, f: seq<Field>)
    requires Sound(p) && forall t :: p.redactText(p.redactText(t)) == p.redactText(t)
    ensures RedactedEnv(p, RedactedEnv(p, f)) == RedactedEnv(p, f)
    decreases f, 0
  {
    if f != [] {
      if Container(f[0].value) {
        RedactionIsIdempotent(p, f[0].value);
      }
      EnvIdempotent(p, f[1..]);
      assert RedactedEnv(p, f)[1..] == RedactedEnv(p, f[1..]);
    }
  }

  lemma {:induction false} HeadersIdempotent(f: seq<Field>)
    ensures MaskedAll(MaskedAll(f)) == MaskedAll(f)
  {
    if f != [] {
      HeadersIdempotent(f[1..]);
      assert MaskedAll(f)[1..] == MaskedAll(f[1..]);
    }
  }

  lemma {:induction false} ItemsIdempotent(p: Policy, x: seq<Value>, maskNext: bool)
    requires Sound(p) && forall t :: p.redactText(p.redactText(t)) == p.redactText(t)
    ensures RedactedItems(p, RedactedItems(p, x, maskNext), maskNext) == RedactedItems(p, x, maskNext)
    decreases x, 0
  {
    if x != [] {
      RedactionIsIdempotent(p, x[0]);
      ItemsIdempotent(p, x[1..], false);
      ItemsIdempotent(p, x[1..], true);
      var flagged := !maskNext && IsFlag(p, x[0]);
      assert RedactedItems(p, x, maskNext)[1..] == RedactedItems(p, x[1..], flagged);
    }
  }
}
