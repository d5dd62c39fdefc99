/** What the hash commands mean to a client. */
module HashLaws {
  import opened Text
  import opened RedisValue
  import opened RedisDatabase
  import opened RespFormatter
  import opened Replies
  import opened CommandPlan
  import opened CommandHandler
  import opened ClientView
  import HC = HashCommands

  /** The fields of a hash, none for a missing key. */
  function FieldsSeen(v: View): map<string, string> {
    if v.HashView? then v.fields else map[]
  }

  function RemainingHash(fields: map<string, string>): View {
    if fields == map[] then Missing else HashView(fields)
  }

  /** The field arguments of HSET: args[2], args[4] and so on. */
  function GivenFields(args: seq<string>): set<string> {
    set i | 2 <= i < |args| && i % 2 == 0 :: args[i]
  }

  /** The field arguments of HDEL: all after the key. */
  function Named(args: seq<string>): set<string> {
    set i | 2 <= i < |args| :: args[i]
  }

  /** The argument at `i` names a field, and no later one names it again. */
  predicate LastNaming(args: seq<string>, i: int) {
    2 <= i && i + 1 < |args| && i % 2 == 0 && forall j :: i < j < |args| && j % 2 == 0 ==> args[j] != args[i]
  }

  /** `after` is `before` with the pairs of the arguments put in, the last value of a field counting. */
  ghost predicate Overridden(before: map<string, string>, args: seq<string>, after: map<string, string>) {
    && after.Keys == before.Keys + GivenFields(args)
    && (forall i :: LastNaming(args, i) ==> args[i] in after && after[args[i]] == args[i + 1])
    && (forall f :: f in before && f !in GivenFields(args) ==> f in after && after[f] == before[f])
  }

  // ----- listing -----

  lemma {:induction false} KeysListed(order: seq<string>, hash: map<string, string>)
    ensures Listing(order, hash, KeysOnly) == order
  {
    if order != [] {
      var n := |order| - 1;
      KeysListed(order[..n], hash);
      assert order == order[..n] + [order[n]];
    }
  }

  lemma {:induction false} ValuesListed(order: seq<string>, hash: map<string, string>, i: nat)
    requires i < |order| && order[i] in hash
    ensures |Listing(order, hash, ValuesOnly)| == |order| && Listing(order, hash, ValuesOnly)[i] == hash[order[i]]
  {
    var n := |order| - 1;
    if i < n {
      ValuesListed(order[..n], hash, i);
    } else {
      ListingLength(order[..n], hash, ValuesOnly);
    }
  }

  lemma {:induction false} BothListed(order: seq<string>, hash: map<string, string>, i: nat)
    requires i < |order| && order[i] in hash
    ensures |Listing(order, hash, Both)| == 2 * |order|
    ensures Listing(order, hash, Both)[2 * i] == order[i] && Listing(order, hash, Both)[2 * i + 1] == hash[order[i]]
  {
    var n := |order| - 1;
    if i < n {
      BothListed(order[..n], hash, i);
    } else {
      ListingLength(order[..n], hash, Both);
    }
  }

  lemma {:induction false} ListingLength(order: seq<string>, hash: map<string, string>, part: Part)
    ensures |Listing(order, hash, part)| == if part == Both then 2 * |order| else |order|
  {
    if order != [] {
      ListingLength(order[..|order| - 1], hash, part);
    }
  }

  /** The items list the fields in the given order; or the value of each; or both in turn, the field
      first. */
  ghost predicate ListedAs(items: seq<string>, order: seq<string>, hash: map<string, string>, part: Part) {
    && multiset(order) == multiset(hash.Keys) && (forall i :: 0 <= i < |order| ==> order[i] in hash)
    && match part
       case KeysOnly => items == order
       case ValuesOnly => |items| == |order| && forall i :: 0 <= i < |order| ==> items[i] == hash[order[i]]
       case Both =>
         && |items| == 2 * |order|
         && forall i :: 0 <= i < |order| ==> items[2 * i] == order[i] && items[2 * i + 1] == hash[order[i]]
  }

  /** The response is an array of the fields, or the values, or both, each field once. */
  ghost predicate ListsHash(resp: string, hash: map<string, string>, part: Part) {
    exists items, order :: resp == FormatArray(items) && ListedAs(items, order, hash, part)
  }

  lemma ListingLists(order: seq<string>, hash: map<string, string>, part: Part)
    requires multiset(order) == multiset(hash.Keys)
    ensures ListedAs(Listing(order, hash, part), order, hash, part)
  {
    hide Listing;
    forall i | 0 <= i < |order| ensures order[i] in hash {
      assert order[i] in multiset(order);
    }
    ListingLength(order, hash, part);
    match part
    case KeysOnly => KeysListed(order, hash);
    case ValuesOnly =>
      forall i | 0 <= i < |order| ensures Listing(order, hash, ValuesOnly)[i] == hash[order[i]] {
        ValuesListed(order, hash, i);
      }
    case Both =>
      var items := Listing(order, hash, Both);
      forall i | 0 <= i < |order| ensures items[2 * i] == order[i] && items[2 * i + 1] == hash[order[i]] {
        BothListed(order, hash, i);
      }
  }

  lemma NothingListed(part: Part)
    ensures Listing([], map[], part) == []
  {
  }

  lemma FieldsRendered(v: View, part: Part, resp: string)
    requires Renders(if v.HashView? then Fields(v.fields, part) else Items([]), resp)
    ensures ListsHash(resp, FieldsSeen(v), part)
  {
    hide FormatArray, Listing, ListedAs;
    if v.HashView? {
      var order :| multiset(order) == multiset(v.fields.Keys) && resp == FormatArray(Listing(order, v.fields, part));
      ListingLists(order, v.fields, part);
    } else {
      NothingListed(part);
      assert multiset([]) == multiset(FieldsSeen(v).Keys);
      ListingLists([], FieldsSeen(v), part);
    }
  }

  // ----- plans -----

  lemma UpdatePlans(args: seq<string>, ctx: Context)
    ensures KeyPlan(HSET, args, ctx) == Some(HC.Hset(args)) && KeyPlan(HDEL, args, ctx) == Some(HC.Hdel(args))
  {
    hide HC.Hset, HC.Hdel;
  }

  lemma ReadPlans(args: seq<string>, ctx: Context)
    ensures KeyPlan(HGET, args, ctx) == Some(HC.Hget(args)) && KeyPlan(HLEN, args, ctx) == Some(HC.Hlen(args))
    ensures KeyPlan(HEXISTS, args, ctx) == Some(HC.Hexists(args))
  {
    hide HC.Hget, HC.Hexists, HC.Hlen;
  }

  lemma ListingPlans(args: seq<string>, ctx: Context)
    ensures KeyPlan(HKEYS, args, ctx) == Some(HC.ListHash(HKEYS, args, KeysOnly))
    ensures KeyPlan(HVALS, args, ctx) == Some(HC.ListHash(HVALS, args, ValuesOnly))
    ensures KeyPlan(HGETALL, args, ctx) == Some(HC.ListHash(HGETALL, args, Both))
  {
    hide HC.ListHash;
  }

  lemma ListReplies(c: Command, args: seq<string>, part: Part, d: Db, now: int)
    requires |args| == 2
    ensures var v := ViewAt(d, args[1], now);
            ReplyTo(HC.ListHash(c, args, part), d, now) == if v.HashView? then Fields(v.fields, part) else Items([])
  {
  }

  /** HKEYS lists every field once, HVALS the value of every field, and HGETALL every field once,
      each followed by its value. */
  lemma ListingMeans(c: Command, st: Server, args: seq<string>, ctx: Context, resp: string)
    requires CommandOf(st.commands, args) == Some(c) && c in {HKEYS, HVALS, HGETALL} && |args| == 2
    requires Renders(Process(st, args, ctx).reply, resp)
    ensures ListsHash(resp, FieldsSeen(ViewAt(st.db, args[1], ctx.now)),
                      if c == HKEYS then KeysOnly else if c == HVALS then ValuesOnly else Both)
  {
    hide KeyPlan, CommandOf, Process, HC.ListHash, ViewAt, ReplyTo, ListsHash, Renders;
    var part := if c == HKEYS then KeysOnly else if c == HVALS then ValuesOnly else Both;
    ListingPlans(args, ctx);
    KeyCommand(st, args, ctx, HC.ListHash(c, args, part), args[1], ctx.now);
    ListReplies(c, args, part, st.db, ctx.now);
    FieldsRendered(ViewAt(st.db, args[1], ctx.now), part, resp);
  }

  // ----- reading one field -----

  lemma FieldReplies(args: seq<string>, d: Db, now: int)
    requires |args| == 3
    ensures var fields := FieldsSeen(ViewAt(d, args[1], now));
            && ReplyTo(HC.Hget(args), d, now) == (if args[2] in fields then Bulk(fields[args[2]]) else Nil)
            && ReplyTo(HC.Hexists(args), d, now) == Number(if args[2] in fields then 1 else 0)
  {
  }

  lemma HlenReplies(args: seq<string>, d: Db, now: int)
    requires |args| == 2
    ensures ReplyTo(HC.Hlen(args), d, now) == Number(|FieldsSeen(ViewAt(d, args[1], now))|)
  {
  }

  /** HGET replies the value of the field, null when there is none; HEXISTS is 1 exactly when there
      is one; HLEN counts the fields. */
  lemma ReadsMean(c: Command, st: Server, args: seq<string>, ctx: Context)
    requires CommandOf(st.commands, args) == Some(c) && c in {HGET, HEXISTS, HLEN}
    requires |args| == if c == HLEN then 2 else 3
    ensures var fields := FieldsSeen(ViewAt(st.db, args[1], ctx.now));
            Process(st, args, ctx).reply
            == if c == HLEN then Number(|fields|)
               else if c == HEXISTS then Number(if args[2] in fields then 1 else 0)
               else if args[2] in fields then Bulk(fields[args[2]])
               else Nil
  {
    hide KeyPlan, CommandOf, Process, HC.Hget, HC.Hexists, HC.Hlen, ViewAt, ReplyTo;
    ReadPlans(args, ctx);
    if c == HLEN {
      KeyCommand(st, args, ctx, HC.Hlen(args), args[1], ctx.now);
      HlenReplies(args, st.db, ctx.now);
    } else {
      KeyCommand(st, args, ctx, if c == HGET then HC.Hget(args) else HC.Hexists(args), args[1], ctx.now);
      FieldReplies(args, st.db, ctx.now);
    }
  }

  // ----- updates -----

  lemma {:induction false} FieldKeys(args: seq<string>)
    requires |args| % 2 == 0
    ensures HC.FieldsIn(args).Keys == GivenFields(args)
    decreases |args|
  {
    if |args| >= 4 {
      FieldKeys(args[..|args| - 2]);
      MoreFields(args);
      hide GivenFields;
    }
  }

  lemma {:induction false} FieldValues(args: seq<string>, i: int)
    requires |args| % 2 == 0 && LastNaming(args, i)
    ensures args[i] in HC.FieldsIn(args) && HC.FieldsIn(args)[args[i]] == args[i + 1]
    decreases |args|
  {
    var n := |args| - 2;
    if i < n {
      var before := args[..n];
      assert forall j :: 0 <= j < n ==> before[j] == args[j];
      assert args[n] != args[i];
      FieldValues(before, i);
    }
  }

  lemma MoreFields(args: seq<string>)
    requires |args| >= 4 && |args| % 2 == 0
    ensures GivenFields(args) == GivenFields(args[..|args| - 2]) + {args[|args| - 2]}
  {
    var n := |args| - 2;
    forall f ensures f in GivenFields(args) <==> f in GivenFields(args[..n]) + {args[n]} {
      if f in GivenFields(args) {
        var i :| 2 <= i < |args| && i % 2 == 0 && args[i] == f;
        assert i < n ==> args[..n][i] == f;
      }
      if f in GivenFields(args[..n]) {
        var i :| 2 <= i < n && i % 2 == 0 && args[..n][i] == f;
        assert args[i] == f;
      }
    }
  }

  lemma StoredOverrides(before: map<string, string>, args: seq<string>)
    requires |args| % 2 == 0
    ensures Overridden(before, args, HC.AllStored(before, args))
    ensures HC.CountNew(before, args) == |GivenFields(args) - before.Keys|
  {
    FieldKeys(args);
    hide HC.FieldsIn, GivenFields, LastNaming;
    forall i | LastNaming(args, i) ensures NamesFound(args, i) {
      FieldValues(args, i);
    }
    var given := HC.FieldsIn(args);
    assert (before + given).Keys == before.Keys + given.Keys;
    forall i | LastNaming(args, i)
      ensures args[i] in before + given && (before + given)[args[i]] == args[i + 1]
    {
      assert NamesFound(args, i);
    }
  }

  ghost predicate NamesFound(args: seq<string>, i: int)
    requires LastNaming(args, i)
  {
    args[i] in HC.FieldsIn(args) && HC.FieldsIn(args)[args[i]] == args[i + 1]
  }

  lemma StoredShows(v: RedisValue, args: seq<string>, t: int)
    requires |args| % 2 == 0 && v.kind == HASH
    ensures var a := HC.PutFields(Some(v), args);
            && a.reply == Number(|GivenFields(args) - v.fields.Keys|) && a.effect.Put?
            && ViewOf(Some(a.effect.value)).HashView?
            && Overridden(v.fields, args, ViewOf(Some(a.effect.value)).fields)
            && ExpiryOf(Some(a.effect.value)) == ExpiryOf(Some(v))
            && (a.effect.value.IsExpired(t) ==> v.IsExpired(t))
  {
    StoredOverrides(v.fields, args);
    hide HC.AllStored, HC.CountNew, GivenFields, Overridden;
  }

  lemma PutShows(cur: Option<RedisValue>, args: seq<string>, t: int)
    requires |args| % 2 == 0
    ensures var a, before := HC.PutFields(cur, args), ViewOf(cur);
            if before.Missing? || before.HashView?
            then && a.reply == Number(|GivenFields(args) - FieldsSeen(before).Keys|) && a.effect.Put?
                 && ViewOf(Some(a.effect.value)).HashView?
                 && Overridden(FieldsSeen(before), args, ViewOf(Some(a.effect.value)).fields)
                 && ExpiryOf(Some(a.effect.value)) == ExpiryOf(cur)
                 && (a.effect.value.IsExpired(t) ==> cur.Some? && cur.value.IsExpired(t))
            else a == Say(Failure(WrongType))
  {
    hide HC.PutFields, GivenFields, Overridden, ViewOf, ExpiryOf, FieldsSeen;
    match cur
    case None =>
      NoHash(args, t);
      StoredShows(OfType(HASH), args, t);
    case Some(v) =>
      if v.kind == HASH {
        HashEntry(v);
        StoredShows(v, args, t);
      } else {
        NotHash(v, args);
      }
  }

  lemma NoHash(args: seq<string>, t: int)
    ensures HC.PutFields(None, args) == HC.PutFields(Some(OfType(HASH)), args)
    ensures ViewOf(None).Missing? && FieldsSeen(ViewOf(None)) == OfType(HASH).fields
    ensures ExpiryOf(Some(OfType(HASH))) == ExpiryOf(None) && !OfType(HASH).IsExpired(t) && OfType(HASH).kind == HASH
  {
    hide HC.AllStored, HC.CountNew;
  }

  lemma HashEntry(v: RedisValue)
    requires v.kind == HASH
    ensures ViewOf(Some(v)) == HashView(v.fields) && FieldsSeen(ViewOf(Some(v))) == v.fields
  {
  }

  lemma NotHash(v: RedisValue, args: seq<string>)
    requires v.kind != HASH
    ensures !ViewOf(Some(v)).HashView? && !ViewOf(Some(v)).Missing?
    ensures HC.PutFields(Some(v), args) == Say(Failure(WrongType))
  {
  }

  lemma HsetShows(args: seq<string>, d: Db, now: int, t: int)
    requires |args| >= 4 && |args| % 2 == 0 && Lasts(d, args[1], now, t)
    ensures var p, before := HC.Hset(args), ViewAt(d, args[1], now);
            var after := ViewAfter(p, d, args[1], now, t);
            if before.Missing? || before.HashView?
            then && ReplyTo(p, d, now) == Number(|GivenFields(args) - FieldsSeen(before).Keys|)
                 && after.HashView? && Overridden(FieldsSeen(before), args, after.fields)
                 && ExpiryAfter(p, d, args[1], now, t) == ExpiryAt(d, args[1], now)
            else ReplyTo(p, d, now) == Failure(WrongType) && after == before
  {
    LastsMeans(d, args[1], now, t);
    var cur := Lookup(d, args[1], now);
    hide HC.PutFields, Lookup, ViewOf, ExpiryOf, FieldsSeen, GivenFields, Overridden, ReplyTo, ViewAfter, ExpiryAfter;
    PutShows(cur, args, t);
    ActionShows(HC.Hset(args), d, args[1], now, t, HC.PutFields(cur, args));
  }

  /** HSET puts its pairs in, the last value of a field counting, leaves the other fields alone, and
      replies how many fields are new. */
  lemma HsetMeans(st: Server, args: seq<string>, ctx: Context, t: int)
    requires CommandOf(st.commands, args) == Some(HSET) && |args| >= 4 && |args| % 2 == 0
    requires Lasts(st.db, args[1], ctx.now, t)
    ensures var a, before := Process(st, args, ctx), ViewAt(st.db, args[1], ctx.now);
            var after := ViewAt(a.server.db, args[1], t);
            if before.Missing? || before.HashView?
            then && a.reply == Number(|GivenFields(args) - FieldsSeen(before).Keys|)
                 && after.HashView? && Overridden(FieldsSeen(before), args, after.fields)
                 && ExpiryAt(a.server.db, args[1], t) == ExpiryAt(st.db, args[1], ctx.now)
            else a.reply == Failure(WrongType) && after == before
  {
    hide KeyPlan, CommandOf, Process, HC.Hset, ViewAt, ViewAfter, ReplyTo, ExpiryAt, ExpiryAfter, GivenFields,
      Overridden, FieldsSeen;
    UpdatePlans(args, ctx);
    KeyCommand(st, args, ctx, HC.Hset(args), args[1], t);
    HsetShows(args, st.db, ctx.now, t);
  }

  lemma RemoveShows(v: RedisValue, args: seq<string>, t: int)
    requires v.kind == HASH
    ensures var a, fields := HC.RemoveFields(v, args), v.fields - Named(args);
            && a.reply == Number(|v.fields.Keys * Named(args)|)
            && (if fields == map[] then a.effect == Remove
                else a.effect.Put? && ViewOf(Some(a.effect.value)) == HashView(fields)
                     && (a.effect.value.IsExpired(t) ==> v.IsExpired(t)))
  {
    assert HC.FieldNames(args) == Named(args);
    hide HC.FieldNames, Named;
  }

  lemma HdelShows(args: seq<string>, d: Db, now: int, t: int)
    requires |args| >= 3 && Lasts(d, args[1], now, t)
    ensures var p, before := HC.Hdel(args), ViewAt(d, args[1], now);
            if before.HashView?
            then ReplyTo(p, d, now) == Number(|before.fields.Keys * Named(args)|)
                 && ViewAfter(p, d, args[1], now, t) == RemainingHash(before.fields - Named(args))
            else ReplyTo(p, d, now) == Number(0) && ViewAfter(p, d, args[1], now, t) == before
  {
    LastsMeans(d, args[1], now, t);
    var p, cur := HC.Hdel(args), Lookup(d, args[1], now);
    hide HC.RemoveFields, Lookup, Named, ReplyTo, ViewAfter, ExpiryAfter, RemainingHash;
    ActionShows(p, d, args[1], now, t, p.act(cur));
    if cur.Some? && cur.value.kind == HASH {
      RemoveShows(cur.value, args, t);
    }
  }

  /** HDEL takes the named fields out and replies how many there were; the key goes with the last one. */
  lemma HdelMeans(st: Server, args: seq<string>, ctx: Context, t: int)
    requires CommandOf(st.commands, args) == Some(HDEL) && |args| >= 3 && Lasts(st.db, args[1], ctx.now, t)
    ensures var a, before := Process(st, args, ctx), ViewAt(st.db, args[1], ctx.now);
            if before.HashView?
            then a.reply == Number(|before.fields.Keys * Named(args)|)
                 && ViewAt(a.server.db, args[1], t) == RemainingHash(before.fields - Named(args))
            else a.reply == Number(0) && ViewAt(a.server.db, args[1], t) == before
  {
    hide KeyPlan, CommandOf, Process, HC.Hdel, ViewAt, ViewAfter, ReplyTo, Named, RemainingHash;
    UpdatePlans(args, ctx);
    KeyCommand(st, args, ctx, HC.Hdel(args), args[1], t);
    HdelShows(args, st.db, ctx.now, t);
  }

  /** HGET after HSET: the last value given for the field. */
  lemma StoredFieldIsFound(st: Server, args: seq<string>, ctx: Context, next: seq<string>, ctx1: Context, i: nat)
    requires CommandOf(st.commands, args) == Some(HSET) && |args| >= 4 && |args| % 2 == 0 && LastNaming(args, i)
    requires Lasts(st.db, args[1], ctx.now, ctx1.now)
    requires ViewAt(st.db, args[1], ctx.now).Missing? || ViewAt(st.db, args[1], ctx.now).HashView?
    requires CommandOf(st.commands, next) == Some(HGET) && |next| == 3 && next[1] == args[1] && next[2] == args[i]
    ensures Process(Process(st, args, ctx).server, next, ctx1).reply == Bulk(args[i + 1])
  {
    hide CommandOf, Process, ViewAt, Lasts, ExpiryAt, GivenFields, LastNaming;
    TableKept(st, args, ctx);
    HsetMeans(st, args, ctx, ctx1.now);
    ReadsMean(HGET, Process(st, args, ctx).server, next, ctx1);
  }
}
