/** JSON values as the application receives them from `JSON.parse` and sends
    them with `JSON.stringify`, together with the JavaScript rules the code
    applies to them: truthiness, optional property access and string
    quoting. Numbers are modelled as integers. */
module Json {
  import opened Wrappers
  import Strings

  datatype Value =
    | Null
    | Bool(b: bool)
    | Num(n: int)
    | Str(s: string)
    | Arr(items: seq<Value>)
    | Obj(fields: seq<Field>)

  /** One `"key": value` member of an object, in source order. */
  datatype Field = Field(key: string, val: Value)

  /** JavaScript `ToBoolean`: `null`, `false`, `0` and `""` are falsy; every
      array and object is truthy. */
  predicate Truthy(v: Value) {
    match v
    case Null => false
    case Bool(b) => b
    case Num(n) => n != 0
    case Str(s) => |s| > 0
    case Arr(_) => true
    case Obj(_) => true
  }

  /** Truthiness of a value that may be `undefined` (`None`). */
  predicate TruthyOpt(v: Option<Value>) {
    v.Some? && Truthy(v.value)
  }

  /** The member named `key` of an object; with duplicate keys the last one
      wins, as with `JSON.parse`. */
  function Lookup(fields: seq<Field>, key: string): (r: Option<Value>)
    ensures r.None? <==> forall i :: 0 <= i < |fields| ==> fields[i].key != key
    ensures r.Some? ==> exists i :: 0 <= i < |fields| && fields[i] == Field(key, r.value)
                                    && forall j :: i < j < |fields| ==> fields[j].key != key
  {
    if |fields| == 0 then None
    else if fields[|fields| - 1].key == key then Some(fields[|fields| - 1].val)
    else Lookup(fields[..|fields| - 1], key)
  }

  /** `v?.key`: `undefined` unless `v` is an object holding `key`. */
  function Prop(v: Option<Value>, key: string): Option<Value> {
    match v
    case Some(Obj(fields)) => Lookup(fields, key)
    case _ => None
  }

  /** `v?.[i]`: the `i`-th element of an array, or the member named by the
      index on an object. */
  function Index(v: Option<Value>, i: nat): Option<Value> {
    match v
    case Some(Arr(items)) => if i < |items| then Some(items[i]) else None
    case Some(Obj(fields)) => Lookup(fields, Strings.NatToString(i))
    case _ => None
  }

  /* ----- JSON.stringify of strings ----- */

  /** A lower-case hexadecimal digit. */
  function HexDigit(d: nat): char
    requires d < 16
  {
    if d < 10 then ('0' as int + d) as char else ('a' as int + d - 10) as char
  }

  /** The escape `JSON.stringify` writes for one character (QuoteJSONString,
      section 25.5.2.3 of ECMA-262): the short forms for backspace, tab,
      newline, form feed, carriage return, quote and backslash, `\u00xx` for
      the other control characters, the character itself otherwise. */
  function EscapeChar(c: char): string {
    if c == '\U{8}' then "\\b"
    else if c == '\t' then "\\t"
    else if c == '\n' then "\\n"
    else if c == '\U{C}' then "\\f"
    else if c == '\r' then "\\r"
    else if c == '"' then "\\\""
    else if c == '\\' then "\\\\"
    else if c < ' ' then "\\u00" + [HexDigit(c as int / 16), HexDigit(c as int % 16)]
    else [c]
  }

  function Escape(s: string): string {
    if |s| == 0 then "" else EscapeChar(s[0]) + Escape(s[1..])
  }

  /** A JSON string literal. */
  function Quote(s: string): string {
    "\"" + Escape(s) + "\""
  }

  /** No control character: in particular no line feed, so a serialised value
      fits on one line. */
  predicate NoControl(s: string) {
    forall i :: 0 <= i < |s| ==> s[i] >= ' '
  }

  lemma {:induction false} EscapeNoControl(s: string)
    ensures NoControl(Escape(s))
  {
    if |s| > 0 {
      EscapeNoControl(s[1..]);
      EscapeCharNoControl(s[0]);
      NoControlConcat(EscapeChar(s[0]), Escape(s[1..]));
    }
  }

  lemma EscapeCharNoControl(c: char)
    ensures NoControl(EscapeChar(c))
  {
    if c < ' ' && c != '\U{8}' && c != '\t' && c != '\n' && c != '\U{C}' && c != '\r' {
      var e := "\\u00" + [HexDigit(c as int / 16), HexDigit(c as int % 16)];
      assert e[4] == HexDigit(c as int / 16) && e[5] == HexDigit(c as int % 16);
    }
  }

  /* ----- JSON.stringify of values ----- */

  function Stringify(v: Value): string
    decreases v, 1
  {
    match v
    case Null => "null"
    case Bool(b) => if b then "true" else "false"
    case Num(n) => Strings.IntToString(n)
    case Str(s) => Quote(s)
    case Arr(items) => "[" + StringifyItems(items) + "]"
    case Obj(fields) => "{" + StringifyFields(fields) + "}"
  }

  function StringifyItems(items: seq<Value>): string
    decreases items, 0
  {
    if |items| == 0 then ""
    else if |items| == 1 then Stringify(items[0])
    else Stringify(items[0]) + "," + StringifyItems(items[1..])
  }

  function StringifyFields(fields: seq<Field>): string
    decreases fields, 0
  {
    if |fields| == 0 then ""
    else
      var member := Quote(fields[0].key) + ":" + Stringify(fields[0].val);
      if |fields| == 1 then member else member + "," + StringifyFields(fields[1..])
  }

  lemma NoControlConcat(a: string, b: string)
    requires NoControl(a) && NoControl(b)
    ensures NoControl(a + b)
  {
    forall i | 0 <= i < |a + b| ensures (a + b)[i] >= ' ' {
      if i >= |a| {
        assert (a + b)[i] == b[i - |a|];
      }
    }
  }

  lemma QuoteNoControl(s: string)
    ensures NoControl(Quote(s))
  {
    EscapeNoControl(s);
    NoControlConcat("\"", Escape(s));
    NoControlConcat("\"" + Escape(s), "\"");
  }

  /** A serialised value never contains a control character, so never a line
      break: every event fits on one `data:` line. */
  lemma {:induction false} StringifyNoControl(v: Value)
    ensures NoControl(Stringify(v))
    decreases v, 1
  {
    match v
    case Null =>
    case Bool(_) =>
    case Num(n) =>
      var r := Strings.IntToString(n);
      assert forall i :: 0 <= i < |r| ==> r[i] == '-' || Strings.IsDigit(r[i]);
    case Str(s) => QuoteNoControl(s);
    case Arr(items) =>
      StringifyItemsNoControl(items);
      NoControlConcat("[", StringifyItems(items));
      NoControlConcat("[" + StringifyItems(items), "]");
    case Obj(fields) =>
      StringifyFieldsNoControl(fields);
      NoControlConcat("{", StringifyFields(fields));
      NoControlConcat("{" + StringifyFields(fields), "}");
  }

  lemma {:induction false} StringifyItemsNoControl(items: seq<Value>)
    ensures NoControl(StringifyItems(items))
    decreases items, 0
  {
    if |items| == 1 {
      StringifyNoControl(items[0]);
    } else if |items| > 1 {
      StringifyNoControl(items[0]);
      StringifyItemsNoControl(items[1..]);
      NoControlConcat(Stringify(items[0]), ",");
      NoControlConcat(Stringify(items[0]) + ",", StringifyItems(items[1..]));
    }
  }

  lemma {:induction false} StringifyFieldsNoControl(fields: seq<Field>)
    ensures NoControl(StringifyFields(fields))
    decreases fields, 0
  {
    if |fields| > 0 {
      QuoteNoControl(fields[0].key);
      StringifyNoControl(fields[0].val);
      NoControlConcat(Quote(fields[0].key), ":");
      NoControlConcat(Quote(fields[0].key) + ":", Stringify(fields[0].val));
      if |fields| > 1 {
        var member := Quote(fields[0].key) + ":" + Stringify(fields[0].val);
        StringifyFieldsNoControl(fields[1..]);
        NoControlConcat(member, ",");
        NoControlConcat(member + ",", StringifyFields(fields[1..]));
      }
    }
  }
}
