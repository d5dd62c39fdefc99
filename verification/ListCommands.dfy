/** src/redis/commands/list_commands.cpp. */
module ListCommands {
  import opened Text
  import opened Decimal
  import opened RedisValue
  import opened RedisDatabase
  import opened Replies
  import opened RespFormatter
  import opened CommandPlan

  function Reverse(items: seq<string>): seq<string> {
    if items == [] then [] else [items[|items| - 1]] + Reverse(items[..|items| - 1])
  }

  function Push(cur: Option<RedisValue>, front: seq<string>, back: seq<string>): Action {
    if cur.Some? && cur.value.kind != LIST then Say(Failure(WrongType))
    else
      var v := if cur.Some? then cur.value else OfType(LIST);
      var list := front + v.list + back;
      Action(Number(|list|), Put(v.(list := list)))
  }

  function Lpush(args: seq<string>): Plan {
    if |args| < 3 then Refuse(WrongArgs(LPUSH))
    else Touch(args[1], (cur: Option<RedisValue>) => Push(cur, Reverse(args[2..]), []))
  }

  function Rpush(args: seq<string>): Plan {
    if |args| < 3 then Refuse(WrongArgs(RPUSH))
    else Touch(args[1], (cur: Option<RedisValue>) => Push(cur, [], args[2..]))
  }

  /** Reply with one element and keep the others; an emptied list disappears with its key. */
  function Pop(v: RedisValue, element: string, others: seq<string>): Action {
    Action(Bulk(element), if others == [] then Remove else Put(v.(list := others)))
  }

  function PopFront(cur: Option<RedisValue>): Action {
    match Holding(cur, LIST)
    case None => Say(Nil)
    case Some(v) => if v.list == [] then Say(Nil) else Pop(v, v.list[0], v.list[1..])
  }

  function PopBack(cur: Option<RedisValue>): Action {
    match Holding(cur, LIST)
    case None => Say(Nil)
    case Some(v) => if v.list == [] then Say(Nil) else Pop(v, v.list[|v.list| - 1], v.list[..|v.list| - 1])
  }

  function Lpop(args: seq<string>): Plan {
    if |args| != 2 then Refuse(WrongArgs(LPOP)) else Touch(args[1], (cur: Option<RedisValue>) => PopFront(cur))
  }

  function Rpop(args: seq<string>): Plan {
    if |args| != 2 then Refuse(WrongArgs(RPOP)) else Touch(args[1], (cur: Option<RedisValue>) => PopBack(cur))
  }

  function Llen(args: seq<string>): Plan {
    if |args| != 2 then Refuse(WrongArgs(LLEN))
    else Touch(args[1], (cur: Option<RedisValue>) =>
      match Holding(cur, LIST) case None => Say(Number(0)) case Some(v) => Say(Number(|v.list|)))
  }

  // ----- indices -----

  /** A negative index counts from the end. */
  function FromEnd(i: int, size: nat): int {
    if i < 0 then i + size else i
  }

  /** `max(0, min(i, size - 1))`. */
  function Clamp(i: int, size: nat): (r: nat)
    ensures size > 0 ==> r < size
  {
    if i <= 0 || size <= 1 then 0 else if i < size then i else size - 1
  }

  /** The elements LRANGE lists. Both ends are pulled into the list. */
  function ClampedSlice(list: seq<string>, start: int, end: int): (r: seq<string>)
    ensures |r| <= |list|
  {
    var first, last := Clamp(FromEnd(start, |list|), |list|), Clamp(FromEnd(end, |list|), |list|);
    if list == [] || first > last then [] else list[first..last + 1]
  }

  /** The slice that Redis documents: positions outside the list contribute nothing. */
  function RedisSlice(list: seq<string>, start: int, end: int): seq<string> {
    var s, e := FromEnd(start, |list|), FromEnd(end, |list|);
    var first := if s < 0 then 0 else s;
    var last := if e >= |list| then |list| - 1 else e;
    if first > last then [] else list[first..last + 1]
  }

  /** LRANGE lists the Redis slice exactly when the list is empty, or the bounds, counted from
      the front, satisfy: an end before the list or a start after it never meets the other bound
      once both are clamped. */
  lemma LrangeIsRedisSlice(list: seq<string>, start: int, end: int)
    ensures ClampedSlice(list, start, end) == RedisSlice(list, start, end) <==>
              var n, s, e := |list|, FromEnd(start, |list|), FromEnd(end, |list|);
              n == 0 || !((s >= n && (e >= n - 1 || n == 1)) || (e < 0 && (s <= 0 || n == 1)))
  {
    var n, s, e := |list|, FromEnd(start, |list|), FromEnd(end, |list|);
    var first, last := Clamp(s, n), Clamp(e, n);
    if n > 0 && (s >= n || e < 0) {
      assert RedisSlice(list, start, end) == [];
      assert first <= last ==> |list[first..last + 1]| > 0;
    } else if n > 0 {
      assert first == (if s < 0 then 0 else s);
      assert last == (if e >= n then n - 1 else e);
    }
  }

  /** In particular it does so whenever the start is not past the end and the end not before the start. */
  lemma LrangeInside(list: seq<string>, start: int, end: int)
    requires FromEnd(start, |list|) < |list| && FromEnd(end, |list|) >= 0
    ensures ClampedSlice(list, start, end) == RedisSlice(list, start, end)
  {
    LrangeIsRedisSlice(list, start, end);
  }

  function Lrange(args: seq<string>): Plan {
    if |args| != 4 then Refuse(WrongArgs(LRANGE))
    else if !IntegerText(args[2]) || !IntegerText(args[3]) then Refuse(NotInteger)
    else Touch(args[1], (cur: Option<RedisValue>) =>
      match Holding(cur, LIST)
      case None => Say(Items([]))
      case Some(v) => Say(Items(ClampedSlice(v.list, ParseInt(args[2]), ParseInt(args[3])))))
  }

  /** The position an index denotes, if it is in the list. */
  function Position(i: int, size: nat): (r: Option<nat>)
    ensures r.Some? ==> r.value < size
  {
    var p := FromEnd(i, size);
    if 0 <= p < size then Some(p) else None
  }

  function Element(v: RedisValue, i: int): Reply {
    match Position(i, |v.list|) case None => Nil case Some(p) => Bulk(v.list[p])
  }

  function Lindex(args: seq<string>): Plan {
    if |args| != 3 then Refuse(WrongArgs(LINDEX))
    else if !IntegerText(args[2]) then Refuse(NotInteger)
    else Touch(args[1], (cur: Option<RedisValue>) =>
      match Holding(cur, LIST) case None => Say(Nil) case Some(v) => Say(Element(v, ParseInt(args[2]))))
  }

  function Replace(v: RedisValue, i: int, element: string): Action {
    match Position(i, |v.list|)
    case None => Say(Failure(IndexOutOfRange))
    case Some(p) => Action(Status("OK"), Put(v.(list := v.list[p := element])))
  }

  function Lset(args: seq<string>): Plan {
    if |args| != 4 then Refuse(WrongArgs(LSET))
    else if !IntegerText(args[2]) then Refuse(NotInteger)
    else Touch(args[1], (cur: Option<RedisValue>) =>
      match Holding(cur, LIST)
      case None => Say(Failure(NoSuchKey))
      case Some(v) => Replace(v, ParseInt(args[2]), args[3]))
  }

  /** LSET then LINDEX: the element just stored at the same position, however it is named, and
      the old one anywhere else. */
  lemma SetThenIndex(v: RedisValue, i: int, j: int, element: string)
    requires Replace(v, i, element).effect.Put?
    ensures Element(Replace(v, i, element).effect.value, j)
         == if Position(j, |v.list|) == Position(i, |v.list|) then Bulk(element) else Element(v, j)
  {
  }

  /** Index `i` and index `i - size` name the same position. */
  lemma NegativeIndexAliases(v: RedisValue, i: int, element: string)
    requires 0 <= i < |v.list|
    ensures Element(v, i) == Element(v, i - |v.list|)
    ensures Replace(v, i, element) == Replace(v, i - |v.list|, element)
  {
    assert FromEnd(i - |v.list|, |v.list|) == i;
  }

  /** The element at an index, as cmdLindex and cmdLset find its position. */
  lemma ElementFound(v: RedisValue, i: int)
    ensures var p := FromEnd(i, |v.list|);
            && (Position(i, |v.list|) == if p < 0 || p >= |v.list| then None else Some(p))
            && (Element(v, i) == if p < 0 || p >= |v.list| then Nil else Bulk(v.list[p]))
  {
  }

  lemma {:induction false} ReverseSnoc(items: seq<string>, item: string)
    ensures Reverse(items + [item]) == [item] + Reverse(items)
  {
    assert (items + [item])[..|items|] == items;
  }

  lemma NothingPushed(args: seq<string>, before: seq<string>)
    requires |args| >= 2
    ensures Reverse(args[2..2]) + before == before
  {
  }

  lemma OnePushed(args: seq<string>, before: seq<string>, i: nat)
    requires 2 <= i < |args|
    ensures Reverse(args[2..i + 1]) + before == [args[i]] + (Reverse(args[2..i]) + before)
  {
    hide Reverse;
    assert args[2..i + 1] == args[2..i] + [args[i]];
    ReverseSnoc(args[2..i], args[i]);
  }

  lemma {:induction false} ReverseLength(items: seq<string>)
    ensures |Reverse(items)| == |items|
  {
    if items != [] {
      ReverseLength(items[..|items| - 1]);
    }
  }

  lemma OneMore(list: seq<string>, start: nat, i: nat)
    requires start <= i < |list|
    ensures list[start..i + 1] == list[start..i] + [list[i]]
  {
  }

  class ListCommands {
    const db: RedisDatabase

    constructor (database: RedisDatabase)
      ensures db == database
    {
      db := database;
    }

    /** The push_front loop. */
    method PushFront(before: seq<string>, args: seq<string>) returns (list: seq<string>)
      requires |args| >= 2
      ensures list == Reverse(args[2..]) + before
    {
      NothingPushed(args, before);
      hide Reverse;
      list := before;
      for i := 2 to |args|
        invariant list == Reverse(args[2..i]) + before
      {
        OnePushed(args, before, i);
        list := [args[i]] + list;
      }
      assert args[2..|args|] == args[2..];
    }

    /** The push_back loop. */
    method PushBack(before: seq<string>, args: seq<string>) returns (list: seq<string>)
      requires |args| >= 2
      ensures list == [] + before + args[2..]
    {
      list := before;
      for i := 2 to |args|
        invariant list == [] + before + args[2..i]
      {
        assert args[2..i + 1] == args[2..i] + [args[i]];
        list := list + [args[i]];
      }
      assert args[2..|args|] == args[2..];
    }

    method CmdLpush(args: seq<string>, now: int) returns (resp: string)
      modifies db
      ensures Yields(RunPlan(Lpush(args), old(db.database), now), db.database, resp)
    {
      hide Purge, Lookup;
      if |args| < 3 {
        resp := RenderProblem(WrongArgs(LPUSH));
        return;
      }
      var key := args[1];
      var value := OpenEntry(db, key, LIST, now);
      if value.None? {
        resp := RenderProblem(WrongType);
        return;
      }
      var list := PushFront(value.value.list, args);
      assert list == list + [];
      var entry := value.value.(list := list);
      PutWhereTheyDiffer(db.database, Purge(old(db.database), key, now), key, entry);
      db.SetValue(key, entry);
      return FormatInteger(|entry.list|);
    }

    method CmdRpush(args: seq<string>, now: int) returns (resp: string)
      modifies db
      ensures Yields(RunPlan(Rpush(args), old(db.database), now), db.database, resp)
    {
      hide Purge, Lookup;
      if |args| < 3 {
        resp := RenderProblem(WrongArgs(RPUSH));
        return;
      }
      var key := args[1];
      var value := OpenEntry(db, key, LIST, now);
      if value.None? {
        resp := RenderProblem(WrongType);
        return;
      }
      var list := PushBack(value.value.list, args);
      var entry := value.value.(list := list);
      PutWhereTheyDiffer(db.database, Purge(old(db.database), key, now), key, entry);
      db.SetValue(key, entry);
      return FormatInteger(|entry.list|);
    }

    method CmdLpop(args: seq<string>, now: int) returns (resp: string)
      modifies db
      ensures Yields(RunPlan(Lpop(args), old(db.database), now), db.database, resp)
    {
      hide Purge, Lookup;
      if |args| != 2 {
        resp := RenderProblem(WrongArgs(LPOP));
        return;
      }
      var key := args[1];
      var value := db.GetValue(key, now);
      if value.None? || value.value.kind != LIST || value.value.list == [] {
        return FormatNull();
      }
      var result := value.value.list[0];
      var entry := value.value.(list := value.value.list[1..]);
      assert PopFront(value) == Pop(value.value, result, entry.list);
      if entry.list == [] {
        var _ := db.DeleteKey(key);
      } else {
        db.SetValue(key, entry);
      }
      return FormatBulkString(result);
    }

    method CmdRpop(args: seq<string>, now: int) returns (resp: string)
      modifies db
      ensures Yields(RunPlan(Rpop(args), old(db.database), now), db.database, resp)
    {
      hide Purge, Lookup;
      if |args| != 2 {
        resp := RenderProblem(WrongArgs(RPOP));
        return;
      }
      var key := args[1];
      var value := db.GetValue(key, now);
      if value.None? || value.value.kind != LIST || value.value.list == [] {
        return FormatNull();
      }
      var size := |value.value.list|;
      var result := value.value.list[size - 1];
      var entry := value.value.(list := value.value.list[..size - 1]);
      assert PopBack(value) == Pop(value.value, result, entry.list);
      if entry.list == [] {
        var _ := db.DeleteKey(key);
      } else {
        db.SetValue(key, entry);
      }
      return FormatBulkString(result);
    }

    method CmdLlen(args: seq<string>, now: int) returns (resp: string)
      modifies db
      ensures Yields(RunPlan(Llen(args), old(db.database), now), db.database, resp)
    {
      hide Purge, Lookup;
      if |args| != 2 {
        resp := RenderProblem(WrongArgs(LLEN));
        return;
      }
      var value := db.GetValue(args[1], now);
      if value.None? || value.value.kind != LIST {
        return FormatInteger(0);
      }
      return FormatInteger(|value.value.list|);
    }

    /** The loop of cmdLrange, from the clamped start to the clamped end. */
    method Slice(list: seq<string>, start0: int, end0: int) returns (result: seq<string>)
      ensures result == ClampedSlice(list, start0, end0)
    {
      var start, end, size := start0, end0, |list|;
      if start < 0 {
        start := start + size;
      }
      if end < 0 {
        end := end + size;
      }
      start := Max(0, Min(start, size - 1));
      end := Max(0, Min(end, size - 1));
      ghost var first, last := Clamp(FromEnd(start0, size), size), Clamp(FromEnd(end0, size), size);
      assert start == first && end == last && (size == 0 ==> first == last == 0);
      assert ClampedSlice(list, start0, end0) == if list == [] || first > last then [] else list[first..last + 1];
      hide Clamp, FromEnd, Max, Min, ClampedSlice;
      result := [];
      if start <= end {
        var i := start;
        while i <= end && i != size
          invariant start <= i <= end + 1
          invariant size > 0 ==> i <= size && result == list[start..i]
          invariant size == 0 ==> i == 0 && result == []
        {
          OneMore(list, start, i);
          result := result + [list[i]];
          i := i + 1;
        }
      }
    }

    method CmdLrange(args: seq<string>, now: int) returns (resp: string)
      modifies db
      ensures Yields(RunPlan(Lrange(args), old(db.database), now), db.database, resp)
    {
      hide IntegerText, ParseInt, ClampedSlice, Purge, Lookup, Renders;
      ItemsAreListed([]);
      if |args| != 4 {
        resp := RenderProblem(WrongArgs(LRANGE));
        return;
      }
      var startOk := IsInteger(args[2]);
      var endOk := IsInteger(args[3]);
      if !startOk || !endOk {
        resp := RenderProblem(NotInteger);
        return;
      }
      var value := db.GetValue(args[1], now);
      if value.None? || value.value.kind != LIST {
        resp := PrintArray([]);
        return;
      }
      var result := Slice(value.value.list, ParseInt(args[2]), ParseInt(args[3]));
      ItemsAreListed(result);
      resp := PrintArray(result);
    }

    method CmdLindex(args: seq<string>, now: int) returns (resp: string)
      modifies db
      ensures Yields(RunPlan(Lindex(args), old(db.database), now), db.database, resp)
    {
      hide IntegerText, ParseInt, Purge, Lookup, FormatBulkString, FormatNull, FormatError, Element, Position;
      if |args| != 3 {
        resp := RenderProblem(WrongArgs(LINDEX));
        return;
      }
      var isNumber := IsInteger(args[2]);
      if !isNumber {
        resp := RenderProblem(NotInteger);
        return;
      }
      var value := db.GetValue(args[1], now);
      if value.None? || value.value.kind != LIST {
        return FormatNull();
      }
      var index := ParseInt(args[2]);
      var list := value.value.list;
      ElementFound(value.value, index);
      if index < 0 {
        index := index + |list|;
      }
      if index < 0 || index >= |list| {
        return FormatNull();
      }
      return FormatBulkString(list[index]);
    }

    method CmdLset(args: seq<string>, now: int) returns (resp: string)
      modifies db
      ensures Yields(RunPlan(Lset(args), old(db.database), now), db.database, resp)
    {
      hide IntegerText, ParseInt, Purge, Lookup;
      if |args| != 4 {
        resp := RenderProblem(WrongArgs(LSET));
        return;
      }
      var key := args[1];
      var isNumber := IsInteger(args[2]);
      if !isNumber {
        resp := RenderProblem(NotInteger);
        return;
      }
      var value := db.GetValue(key, now);
      if value.None? || value.value.kind != LIST {
        resp := RenderProblem(NoSuchKey);
        return;
      }
      var index := ParseInt(args[2]);
      var list := value.value.list;
      if index < 0 {
        index := index + |list|;
      }
      if index < 0 || index >= |list| {
        resp := RenderProblem(IndexOutOfRange);
        return;
      }
      db.SetValue(key, value.value.(list := list[index := args[3]]));
      return FormatSimpleString("OK");
    }
  }

  function Min(a: int, b: int): int {
    if a < b then a else b
  }

  function Max(a: int, b: int): int {
    if a < b then b else a
  }
}
