/**
  Copying a parsed JSON value back to text with a nesting limit, and a parser for the grammar of
  RFC 8259 that recovers the value.
 */
module JsonValue {
  import opened Bytes
  import opened JsonString

  /** Numbers, strings and keys keep the text they had in the source. */
  datatype Value =
    | Null
    | Bool(boolean: bool)
    | Num(text: Text)
    | Str(text: Text)
    | Arr(items: seq<Value>)
    | Obj(fields: seq<Field>)

  datatype Field = Field(key: Text, value: Value)

  const NULL: Text := [110, 117, 108, 108]
  const TRUE: Text := [116, 114, 117, 101]
  const FALSE: Text := [102, 97, 108, 115, 101]

  // ---- The text of a value ----

  function Quoted(raw: Text): Text {
    [34] + raw + [34]
  }

  function Print(v: Value): Text
    decreases v, 0
  {
    match v
    case Null => NULL
    case Bool(b) => if b then TRUE else FALSE
    case Num(text) => text
    case Str(text) => Quoted(text)
    case Arr(items) => [91] + PrintItems(items) + [93]
    case Obj(fields) => [123] + PrintFields(fields) + [125]
  }

  function PrintItems(items: seq<Value>): Text
    decreases items
  {
    if items == [] then []
    else if |items| == 1 then Print(items[0])
    else PrintItems(items[..|items| - 1]) + [44] + Print(items[|items| - 1])
  }

  function PrintField(f: Field): Text
    decreases f, 1
  {
    Quoted(f.key) + [58] + Print(f.value)
  }

  function PrintFields(fields: seq<Field>): Text
    decreases fields
  {
    if fields == [] then []
    else if |fields| == 1 then PrintField(fields[0])
    else PrintFields(fields[..|fields| - 1]) + [44] + PrintField(fields[|fields| - 1])
  }

  /** The text has no space between its tokens, and its items and fields stand in their order. */
  lemma PrintIsCompact(v: Value)
    ensures v.Null? ==> Print(v) == [110, 117, 108, 108]
    ensures v.Bool? ==> Print(v) == if v.boolean then [116, 114, 117, 101] else [102, 97, 108, 115, 101]
    ensures v.Num? ==> Print(v) == v.text
    ensures v.Str? ==> Print(v) == [34] + v.text + [34]
    ensures v == Arr([]) ==> Print(v) == [91, 93]
    ensures v.Arr? && |v.items| == 1 ==> Print(v) == [91] + Print(v.items[0]) + [93]
    ensures v.Arr? && |v.items| > 1 ==>
      var front, last := Print(Arr(v.items[..|v.items| - 1])), v.items[|v.items| - 1];
      front != [] && Print(v) == front[..|front| - 1] + [44] + Print(last) + [93]
    ensures v == Obj([]) ==> Print(v) == [123, 125]
    ensures v.Obj? && |v.fields| == 1 ==>
      Print(v) == [123, 34] + v.fields[0].key + [34, 58] + Print(v.fields[0].value) + [125]
    ensures v.Obj? && |v.fields| > 1 ==>
      var front, last := Print(Obj(v.fields[..|v.fields| - 1])), v.fields[|v.fields| - 1];
      && front != []
      && Print(v) == front[..|front| - 1] + [44, 34] + last.key + [34, 58] + Print(last.value) + [125]
  {
    match v
    case Obj(fields) => ObjectIsCompact(fields);
    case Arr(items) => ArrayIsCompact(items);
    case _ =>
  }

  lemma ArrayIsCompact(items: seq<Value>)
    ensures items == [] ==> Print(Arr(items)) == [91, 93]
    ensures |items| == 1 ==> Print(Arr(items)) == [91] + Print(items[0]) + [93]
    ensures |items| > 1 ==>
      var front := Print(Arr(items[..|items| - 1]));
      front != [] && Print(Arr(items)) == front[..|front| - 1] + [44] + Print(items[|items| - 1]) + [93]
  {
    if |items| > 1 {
      var front, inner := Print(Arr(items[..|items| - 1])), PrintItems(items[..|items| - 1]);
      assert front == [91] + inner + [93] && front[..|front| - 1] == [91] + inner;
    }
  }

  lemma ObjectIsCompact(fields: seq<Field>)
    ensures fields == [] ==> Print(Obj(fields)) == [123, 125]
    ensures |fields| == 1 ==>
      Print(Obj(fields)) == [123, 34] + fields[0].key + [34, 58] + Print(fields[0].value) + [125]
    ensures |fields| > 1 ==>
      var front, last := Print(Obj(fields[..|fields| - 1])), fields[|fields| - 1];
      && front != []
      && Print(Obj(fields)) == front[..|front| - 1] + [44, 34] + last.key + [34, 58] + Print(last.value) + [125]
  {
    if |fields| == 1 {
      FieldIsCompact(fields[0]);
    }
    if |fields| > 1 {
      FieldIsCompact(fields[|fields| - 1]);
      var front, inner := Print(Obj(fields[..|fields| - 1])), PrintFields(fields[..|fields| - 1]);
      assert front == [123] + inner + [125] && front[..|front| - 1] == [123] + inner;
    }
    hide PrintField;
  }

  lemma FieldIsCompact(f: Field)
    ensures PrintField(f) == [34] + f.key + [34, 58] + Print(f.value)
  {}

  /** How many levels of non-empty arrays and objects stand above the deepest value. */
  function Height(v: Value): nat
    decreases v, 0
  {
    match v
    case Arr(items) => if items == [] then 0 else 1 + ItemsHeight(items)
    case Obj(fields) => if fields == [] then 0 else 1 + FieldsHeight(fields)
    case _ => 0
  }

  function ItemsHeight(items: seq<Value>): nat
    decreases items
  {
    if items == [] then 0 else Max(ItemsHeight(items[..|items| - 1]), Height(items[|items| - 1]))
  }

  function FieldsHeight(fields: seq<Field>): nat
    decreases fields
  {
    if fields == [] then 0 else Max(FieldsHeight(fields[..|fields| - 1]), Height(fields[|fields| - 1].value))
  }

  // ---- The writer ----

  const MAX_DEPTH := 256

  method JsonAppendRawSview(buffer: Buffer, text: Text)
    modifies buffer
    ensures buffer.data == old(buffer.data) + text
  {
    for i := 0 to |text|
      invariant buffer.data == old(buffer.data) + text[..i]
    {
      assert text[..i + 1] == text[..i] + [text[i]];
      buffer.Push(text[i]);
    }
    assert text[..|text|] == text;
  }

  method JsonAppendRawString(buffer: Buffer, raw: Text)
    modifies buffer
    ensures buffer.data == old(buffer.data) + Quoted(raw)
  {
    buffer.Push(34);
    JsonAppendRawSview(buffer, raw);
    buffer.Push(34);
  }

  /**
    True exactly when no value lies deeper than the limit; then the whole text is appended, and
    otherwise a prefix of it.
   */
  method JsonAppendRawValue(buffer: Buffer, value: Value, depth: int) returns (ok: bool)
    modifies buffer
    decreases value, 0
    ensures ok <==> depth + Height(value) <= MAX_DEPTH
    ensures ok ==> buffer.data == old(buffer.data) + Print(value)
    ensures old(buffer.data) <= buffer.data <= old(buffer.data) + Print(value)
  {
    if depth > MAX_DEPTH {
      return false;
    }
    match value {
      case Null =>
        JsonAppendRawSview(buffer, NULL);
      case Bool(boolean) =>
        if boolean {
          JsonAppendRawSview(buffer, TRUE);
        }
        if !boolean {
          JsonAppendRawSview(buffer, FALSE);
        }
      case Num(text) =>
        JsonAppendRawSview(buffer, text);
      case Str(text) =>
        JsonAppendRawString(buffer, text);
      case Arr(items) =>
        ok := AppendItems(buffer, items, depth);
        return;
      case Obj(fields) =>
        ok := AppendFields(buffer, fields, depth);
        return;
    }
    ok := true;
  }

  lemma {:induction false} ItemsHeightBound(items: seq<Value>, h: int)
    requires items != []
    ensures ItemsHeight(items) <= h <==> forall j :: 0 <= j < |items| ==> Height(items[j]) <= h
  {
    var front := items[..|items| - 1];
    if front != [] {
      ItemsHeightBound(front, h);
      assert forall j :: 0 <= j < |items| ==> j == |items| - 1 || items[j] == front[j];
    }
    hide Height;
  }

  lemma {:induction false} FieldsHeightBound(fields: seq<Field>, h: int)
    requires fields != []
    ensures FieldsHeight(fields) <= h <==> forall j :: 0 <= j < |fields| ==> Height(fields[j].value) <= h
  {
    var front := fields[..|fields| - 1];
    if front != [] {
      FieldsHeightBound(front, h);
      assert forall j :: 0 <= j < |fields| ==> j == |fields| - 1 || fields[j] == front[j];
    }
    hide Height;
  }

  /** The text of the first k + 1 items extends that of the first k. */
  lemma ItemsGrow(items: seq<Value>, k: nat)
    requires k < |items|
    ensures PrintItems(items[..k + 1]) == PrintItems(items[..k]) + (if k > 0 then [44] else []) + Print(items[k])
  {
    var now := items[..k + 1];
    assert now[..k] == items[..k] && now[k] == items[k];
    if k == 0 {
      assert PrintItems(items[..0]) == [];
    }
    hide Print;
  }

  lemma FieldsGrow(fields: seq<Field>, k: nat)
    requires k < |fields|
    ensures PrintFields(fields[..k + 1]) ==
      PrintFields(fields[..k]) + (if k > 0 then [44] else []) + PrintField(fields[k])
  {
    var now := fields[..k + 1];
    assert now[..k] == fields[..k] && now[k] == fields[k];
    if k == 0 {
      assert PrintFields(fields[..0]) == [];
    }
    hide PrintField;
  }

  lemma {:induction false} ItemsPrefix(items: seq<Value>, k: nat)
    requires k <= |items|
    ensures PrintItems(items[..k]) <= PrintItems(items)
    decreases |items| - k
  {
    if k < |items| {
      ItemsGrow(items, k);
      hide Print, PrintItems;
      ItemsPrefix(items, k + 1);
    } else {
      assert items[..k] == items;
    }
  }

  lemma {:induction false} FieldsPrefix(fields: seq<Field>, k: nat)
    requires k <= |fields|
    ensures PrintFields(fields[..k]) <= PrintFields(fields)
    decreases |fields| - k
  {
    if k < |fields| {
      FieldsGrow(fields, k);
      hide PrintField, PrintFields;
      FieldsPrefix(fields, k + 1);
    } else {
      assert fields[..k] == fields;
    }
  }

  /** One round of the loop: a comma unless it is the first, then the item. */
  method AppendItem(buffer: Buffer, items: seq<Value>, k: nat, depth: int, ghost base: Text) returns (ok: bool)
    requires k < |items| && buffer.data == base + PrintItems(items[..k])
    modifies buffer
    decreases items, 1
    ensures ok <==> depth + Height(items[k]) <= MAX_DEPTH
    ensures ok ==> buffer.data == base + PrintItems(items[..k + 1])
    ensures base <= buffer.data <= base + PrintItems(items)
  {
    ItemsGrow(items, k);
    ItemsPrefix(items, k + 1);
    AssociateItem(base, PrintItems(items[..k]), if k > 0 then [44] else [], Print(items[k]));
    hide Print, PrintItems, PrintFields, Height;
    if k > 0 {
      buffer.Push(44);
    }
    ok := JsonAppendRawValue(buffer, items[k], depth);
    PrefixChain(buffer.data, base, PrintItems(items[..k + 1]), PrintItems(items));
  }

  /** The array case: its loop stops at the first item that is refused. */
  method AppendItems(buffer: Buffer, items: seq<Value>, depth: int) returns (ok: bool)
    requires depth <= MAX_DEPTH
    modifies buffer
    decreases items, 2
    ensures ok <==> depth + Height(Arr(items)) <= MAX_DEPTH
    ensures ok ==> buffer.data == old(buffer.data) + Print(Arr(items))
    ensures old(buffer.data) <= buffer.data <= old(buffer.data) + Print(Arr(items))
  {
    assert Print(Arr(items)) == [91] + PrintItems(items) + [93];
    assert items != [] ==> Height(Arr(items)) == 1 + ItemsHeight(items);
    if items != [] {
      ItemsHeightBound(items, MAX_DEPTH - depth - 1);
    }
    assert PrintItems(items[..0]) == [];
    ghost var base := old(buffer.data) + [91];
    AroundText(old(buffer.data), [91], PrintItems(items), [93]);
    hide Print, Height, PrintItems;
    buffer.Push(91);
    for k := 0 to |items|
      invariant buffer.data == base + PrintItems(items[..k])
      invariant forall j :: 0 <= j < k ==> depth + 1 + Height(items[j]) <= MAX_DEPTH
    {
      ok := AppendItem(buffer, items, k, depth + 1, base);
      if !ok {
        return false;
      }
    }
    assert items[..|items|] == items;
    buffer.Push(93);
    ok := true;
  }

  /** One round of the loop: a comma unless it is the first, then the member. */
  method AppendField(buffer: Buffer, fields: seq<Field>, k: nat, depth: int, ghost base: Text) returns (ok: bool)
    requires k < |fields| && buffer.data == base + PrintFields(fields[..k])
    modifies buffer
    decreases fields, 1
    ensures ok <==> depth + Height(fields[k].value) <= MAX_DEPTH
    ensures ok ==> buffer.data == base + PrintFields(fields[..k + 1])
    ensures base <= buffer.data <= base + PrintFields(fields)
  {
    FieldsGrow(fields, k);
    FieldsPrefix(fields, k + 1);
    assert PrintField(fields[k]) == Quoted(fields[k].key) + [58] + Print(fields[k].value);
    AssociateField(base, PrintFields(fields[..k]), if k > 0 then [44] else [], Quoted(fields[k].key),
                   Print(fields[k].value));
    hide Print, PrintItems, PrintFields, PrintField, Height, Quoted;
    if k > 0 {
      buffer.Push(44);
    }
    JsonAppendRawString(buffer, fields[k].key);
    buffer.Push(58);
    ok := JsonAppendRawValue(buffer, fields[k].value, depth);
    PrefixChain(buffer.data, base, PrintFields(fields[..k + 1]), PrintFields(fields));
  }

  /** The object case. */
  method AppendFields(buffer: Buffer, fields: seq<Field>, depth: int) returns (ok: bool)
    requires depth <= MAX_DEPTH
    modifies buffer
    decreases fields, 2
    ensures ok <==> depth + Height(Obj(fields)) <= MAX_DEPTH
    ensures ok ==> buffer.data == old(buffer.data) + Print(Obj(fields))
    ensures old(buffer.data) <= buffer.data <= old(buffer.data) + Print(Obj(fields))
  {
    assert Print(Obj(fields)) == [123] + PrintFields(fields) + [125];
    assert fields != [] ==> Height(Obj(fields)) == 1 + FieldsHeight(fields);
    if fields != [] {
      FieldsHeightBound(fields, MAX_DEPTH - depth - 1);
    }
    assert PrintFields(fields[..0]) == [];
    ghost var base := old(buffer.data) + [123];
    AroundText(old(buffer.data), [123], PrintFields(fields), [125]);
    hide Print, Height, PrintFields;
    buffer.Push(123);
    for k := 0 to |fields|
      invariant buffer.data == base + PrintFields(fields[..k])
      invariant forall j :: 0 <= j < k ==> depth + 1 + Height(fields[j].value) <= MAX_DEPTH
    {
      ok := AppendField(buffer, fields, k, depth + 1, base);
      if !ok {
        return false;
      }
    }
    assert fields[..|fields|] == fields;
    buffer.Push(125);
    ok := true;
  }

  lemma PrefixChain(a: Text, base: Text, b: Text, c: Text)
    requires a <= base + b && b <= c
    ensures a <= base + c
  {
    assert base + b <= base + c;
  }

  lemma AssociateItem(base: Text, before: Text, comma: Text, text: Text)
    ensures base + before + comma + text == base + (before + comma + text)
    ensures comma == [] ==> base + before == base + before + comma
    ensures base <= base + before + comma
  {}

  lemma AssociateField(base: Text, before: Text, comma: Text, key: Text, text: Text)
    ensures base + before + comma + key + [58] + text == base + (before + comma + (key + [58] + text))
    ensures comma == [] ==> base + before == base + before + comma
    ensures base <= base + before + comma + key + [58]
  {
    assert comma + (key + [58] + text) == comma + key + [58] + text;
  }

  lemma AroundText(base: Text, open: Text, text: Text, close: Text)
    ensures base + open + text + close == base + (open + text + close)
    ensures base + open + text <= base + (open + text + close)
    ensures base <= base + open
  {}
}
