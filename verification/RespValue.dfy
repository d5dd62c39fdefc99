/** The RESP2 value tree (src/resp/resp_value.h) and its flattening into an argument vector. */
module RespValue {
  import opened Text
  import opened Decimal

  datatype Value =
    | SimpleString(text: string)
    | Error(text: string)
    | Integer(number: int)
    | BulkString(text: string)
    | Array(elements: seq<Value>)
    | Null

  /** What one value contributes to an argument vector: nested arrays are flattened,
      a null counts as an empty string and a number as its decimal text. */
  function Arguments(v: Value): seq<string> {
    match v
    case Array(elements) => ArgumentsOfAll(elements)
    case Integer(n) => [ToString(n)]
    case Null => [""]
    case SimpleString(t) => [t]
    case Error(t) => [t]
    case BulkString(t) => [t]
  }

  function ArgumentsOfAll(vs: seq<Value>): seq<string> {
    if vs == [] then [] else Arguments(vs[0]) + ArgumentsOfAll(vs[1..])
  }

  lemma {:induction false} ArgumentsOfAllSnoc(vs: seq<Value>, v: Value)
    ensures ArgumentsOfAll(vs + [v]) == ArgumentsOfAll(vs) + Arguments(v)
  {
    if vs == [] {
      assert [v][1..] == [];
    } else {
      assert (vs + [v])[1..] == vs[1..] + [v];
      ArgumentsOfAllSnoc(vs[1..], v);
    }
  }

  lemma {:induction false} ArgumentsConcat(a: seq<Value>, b: seq<Value>)
    ensures ArgumentsOfAll(a + b) == ArgumentsOfAll(a) + ArgumentsOfAll(b)
  {
    if a == [] {
      assert a + b == b;
    } else {
      assert (a + b)[1..] == a[1..] + b;
      ArgumentsConcat(a[1..], b);
    }
  }

  /** Anywhere in a message a number can be sent for its text, a line for a bulk string, a null for
      an empty one, and an array for its elements: the arguments are the same. */
  lemma FormsAreAlike(before: seq<Value>, after: seq<Value>, n: int, text: string, inner: seq<Value>)
    ensures ArgumentsOfAll(before + [Integer(n)] + after) == ArgumentsOfAll(before + [BulkString(ToString(n))] + after)
    ensures ArgumentsOfAll(before + [SimpleString(text)] + after) == ArgumentsOfAll(before + [BulkString(text)] + after)
    ensures ArgumentsOfAll(before + [Error(text)] + after) == ArgumentsOfAll(before + [BulkString(text)] + after)
    ensures ArgumentsOfAll(before + [Null] + after) == ArgumentsOfAll(before + [BulkString("")] + after)
    ensures ArgumentsOfAll(before + [Array(inner)] + after) == ArgumentsOfAll(before + inner + after)
  {
    hide ArgumentsOfAll, ToString;
    AmongOthers(before, Integer(n), after);
    AmongOthers(before, SimpleString(text), after);
    AmongOthers(before, Error(text), after);
    AmongOthers(before, BulkString(text), after);
    AmongOthers(before, BulkString(ToString(n)), after);
    AmongOthers(before, Null, after);
    AmongOthers(before, BulkString(""), after);
    AmongOthers(before, Array(inner), after);
    ArgumentsConcat(before + inner, after);
    ArgumentsConcat(before, inner);
  }

  lemma AmongOthers(before: seq<Value>, v: Value, after: seq<Value>)
    ensures ArgumentsOfAll(before + [v] + after) == ArgumentsOfAll(before) + Arguments(v) + ArgumentsOfAll(after)
  {
    hide Arguments;
    ArgumentsConcat(before + [v], after);
    ArgumentsOfAllSnoc(before, v);
  }

  function Bulks(items: seq<string>): (vs: seq<Value>)
    ensures |vs| == |items|
  {
    seq(|items|, i requires 0 <= i < |items| => BulkString(items[i]))
  }

  /** An array of bulk strings becomes the vector of their texts. */
  lemma {:induction false} ArgumentsOfBulks(items: seq<string>)
    ensures ArgumentsOfAll(Bulks(items)) == items
  {
    if items != [] {
      assert Bulks(items)[1..] == Bulks(items[1..]);
      ArgumentsOfBulks(items[1..]);
    }
  }

  /** `RESPParser::toStringVector`. */
  method ToStringVector(value: Value) returns (result: seq<string>)
    ensures result == Arguments(value)
    decreases value
  {
    result := [];
    if !value.Array? {
      if value.Null? {
        result := result + [""];
      } else if value.SimpleString? || value.Error? || value.BulkString? {
        result := result + [value.text];
      } else if value.Integer? {
        result := result + [ToString(value.number)];
      }
      return;
    }
    var arr := value.elements;
    var i := 0;
    while i < |arr|
      invariant 0 <= i <= |arr|
      invariant result == ArgumentsOfAll(arr[..i])
    {
      var element := arr[i];
      ArgumentsOfAllSnoc(arr[..i], element);
      assert arr[..i] + [element] == arr[..i + 1];
      if element.Null? {
        result := result + [""];
      } else if element.SimpleString? || element.Error? || element.BulkString? {
        result := result + [element.text];
      } else if element.Integer? {
        result := result + [ToString(element.number)];
      } else if element.Array? {
        var nested := ToStringVector(element);
        result := result + nested;
      }
      i := i + 1;
    }
    assert arr[..|arr|] == arr;
  }
}
