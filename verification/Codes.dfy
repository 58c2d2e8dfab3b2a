/** Credit codes (apps/api/src/codes/codes.service.ts): batches, redemption and the admin edits. */
module Codes {
  import opened Common
  import opened Ledger
  import opened Sums
  import Tables

  type Text = string

  // ----- the text of a code -----

  const ALPHABET: Text := "ABCDEFGH" + ("JKLMNPQR" + ("STUVWXYZ" + "23456789"))

  predicate Dropped(c: char) {
    c == '-' || c == ' ' || c == '\t' || c == '\n' || c == '\r'
  }

  function Upper(c: char): char {
    if 'a' <= c <= 'z' then c - 'a' + 'A' else c
  }

  /** Drop separators, then fold to upper case. */
  function Normalize(raw: Text): Text {
    if raw == [] then [] else
    (if Dropped(raw[0]) then [] else [Upper(raw[0])]) + Normalize(raw[1..])
  }

  /** Groups of four joined by dashes. */
  function Grouped(s: Text): Text
    requires |s| % 4 == 0
  {
    if |s| <= 4 then s else s[..4] + "-" + Grouped(s[4..])
  }

  predicate Printable(s: Text) {
    forall i :: 0 <= i < |s| ==> s[i] in ALPHABET
  }

  /** Neither a separator nor in need of folding. */
  predicate Plain(s: Text) {
    forall i :: 0 <= i < |s| ==> !Dropped(s[i]) && Upper(s[i]) == s[i]
  }

  lemma LettersPlain(c: char)
    ensures 'A' <= c <= 'Z' || '2' <= c <= '9' ==> !Dropped(c) && Upper(c) == c
  {
  }

  lemma AlphabetPlain(c: char)
    requires c in ALPHABET
    ensures !Dropped(c) && Upper(c) == c
  {
    var p: Text, q: Text, r: Text, d: Text := "ABCDEFGH", "JKLMNPQR", "STUVWXYZ", "23456789";
    assert ALPHABET == p + (q + (r + d));
    assert c in p || c in q || c in r || c in d;
    assert c in p ==> 'A' <= c <= 'Z';
    assert c in q ==> 'A' <= c <= 'Z';
    assert c in r ==> 'A' <= c <= 'Z';
    assert c in d ==> '2' <= c <= '9';
    LettersPlain(c);
  }

  lemma {:induction false} NormalizeAppend(s: Text, t: Text)
    ensures Normalize(s + t) == Normalize(s) + Normalize(t)
    decreases |s|
  {
    if s == [] {
      assert s + t == t;
    } else {
      assert (s + t)[1..] == s[1..] + t;
      NormalizeAppend(s[1..], t);
    }
  }

  lemma {:induction false} NormalizePlain(s: Text)
    requires Plain(s)
    ensures Normalize(s) == s
  {
    if s != [] {
      NormalizePlain(s[1..]);
    }
  }

  lemma {:induction false} NormalizeClean(raw: Text)
    ensures Plain(Normalize(raw))
  {
    if raw != [] {
      NormalizeClean(raw[1..]);
    }
  }

  /** Typing a normalized code back in changes nothing. */
  lemma NormalizeTwice(raw: Text)
    ensures Normalize(Normalize(raw)) == Normalize(raw)
  {
    NormalizeClean(raw);
    NormalizePlain(Normalize(raw));
  }

  lemma {:induction false} GroupedPlain(s: Text)
    requires |s| % 4 == 0 && Plain(s)
    ensures Normalize(Grouped(s)) == s
    decreases |s|
  {
    if |s| <= 4 {
      NormalizePlain(s);
    } else {
      var head, tail := s[..4], s[4..];
      NormalizePlain(head);
      NormalizeAppend(head + "-", Grouped(tail));
      NormalizeAppend(head, "-");
      GroupedPlain(tail);
    }
  }

  /** The text shown to the customer normalizes to the characters that were drawn. */
  lemma GroupedRoundTrip(s: Text)
    requires |s| % 4 == 0 && Printable(s)
    ensures Normalize(Grouped(s)) == s
  {
    forall i | 0 <= i < |s| ensures !Dropped(s[i]) && Upper(s[i]) == s[i] { AlphabetPlain(s[i]); }
    GroupedPlain(s);
  }

  // ----- tables -----

  datatype CodeStatus = Active | Paused | Revoked | Exhausted

  datatype Code = Code(id: nat, batch: nat, value: nat, maxTotal: nat, maxPerUser: nat,
                       uses: int, status: CodeStatus, expires: Option<int>)

  datatype Batch = Batch(redeemed: int, credit: int)

  datatype Redemptions = Redeemed(code: nat, user: User, amount: nat)

  /** `codes` is keyed by the unique column code_normalized. */
  datatype Shop = Shop(books: Books, codes: map<Text, Code>, batches: map<nat, Batch>, reds: seq<Redemptions>)

  datatype Refusal = InvalidCode | PerUserLimit | NoWallet | DuplicateKey | BadInput

  datatype Result = Ok(shop: Shop) | Err(error: Refusal)

  function UsedBy(reds: seq<Redemptions>, code: nat, user: User): nat
    decreases |reds|
  {
    if reds == [] then 0 else
    var r := reds[|reds| - 1];
    UsedBy(reds[..|reds| - 1], code, user) + if r.code == code && r.user == user then 1 else 0
  }

  ghost function UsesOf(reds: seq<Redemptions>, code: nat): nat
    decreases |reds|
  {
    if reds == [] then 0 else
    UsesOf(reds[..|reds| - 1], code) + if reds[|reds| - 1].code == code then 1 else 0
  }

  /** The WHERE clause of the counter update. */
  predicate Redeemable(c: Code, now: int) {
    c.status == Active && (c.maxTotal == 0 || c.uses < c.maxTotal) && (c.expires.None? || c.expires.value > now)
  }

  /** The code row after one more use by a user who had used it `used` times. */
  function Bumped(c: Code, used: nat): Code {
    var c' := c.(uses := c.uses + 1);
    if c.maxTotal > 0 && used + 1 >= c.maxTotal && c'.uses >= c.maxTotal then c'.(status := Exhausted) else c'
  }

  function BumpBatch(batches: map<nat, Batch>, b: nat, value: nat): map<nat, Batch> {
    if b in batches then batches[b := Batch(batches[b].redeemed + 1, batches[b].credit + value)] else batches
  }

  function Redeem(s: Shop, user: User, raw: Text, now: int): Result {
    var k := Normalize(raw);
    if |k| < 4 || k !in s.codes || !Redeemable(s.codes[k], now) then Err(InvalidCode) else
    var c := s.codes[k];
    var used := UsedBy(s.reds, c.id, user);
    if used >= c.maxPerUser then Err(PerUserLimit) else
    if user !in s.books.wallets then Err(NoWallet) else
    if Used(s.books, Redemption(c.id, user)) then Err(DuplicateKey) else
    Ok(Shop(Post(s.books, user, c.value, Some(Redemption(c.id, user))),
            s.codes[k := Bumped(c, used)],
            BumpBatch(s.batches, c.batch, c.value),
            s.reds + [Redeemed(c.id, user, c.value)]))
  }

  // ----- admin edits -----

  function SetStatus(s: Shop, id: nat, st: CodeStatus): Shop {
    s.(codes := map k | k in s.codes :: if s.codes[k].id == id then s.codes[k].(status := st) else s.codes[k])
  }

  function SetExpiry(s: Shop, id: nat, x: Option<int>): Shop {
    s.(codes := map k | k in s.codes :: if s.codes[k].id == id then s.codes[k].(expires := x) else s.codes[k])
  }

  function SetBatchStatus(s: Shop, b: nat, st: CodeStatus): Shop {
    s.(codes := map k | k in s.codes :: if s.codes[k].batch == b then s.codes[k].(status := st) else s.codes[k])
  }

  function SetBatchExpiry(s: Shop, b: nat, x: Option<int>): Shop {
    s.(codes := map k | k in s.codes :: if s.codes[k].batch == b then s.codes[k].(expires := x) else s.codes[k])
  }

  /** Another money step on the shared ledger; only redeem builds redemption keys. */
  function OtherMoney(s: Shop, user: User, amount: int, key: Option<IdemKey>): Shop {
    if user !in s.books.wallets || s.books.wallets[user].balance + amount < 0 then s else
    if key.Some? && (key.value.Redemption? || Used(s.books, key.value)) then s else
    s.(books := Post(s.books, user, amount, key))
  }

  /** The bulk insert: the i-th code gets id first + i; a clash with a stored code or id aborts. */
  function InsertCodes(codes: map<Text, Code>, keys: seq<Text>, proto: Code): Option<map<Text, Code>>
    decreases |keys|
  {
    if keys == [] then Some(codes) else
    var n := |keys| - 1;
    match InsertCodes(codes, keys[..n], proto)
    case None => None
    case Some(m) =>
      if keys[n] in m || IdTaken(m, proto.id + n) then None
      else Some(m[keys[n] := proto.(id := proto.id + n)])
  }

  function Keys(names: seq<Text>): (ks: seq<Text>)
    ensures |ks| == |names| && forall i :: 0 <= i < |ks| ==> ks[i] == Normalize(names[i])
  {
    seq(|names|, i requires 0 <= i < |names| => Normalize(names[i]))
  }

  predicate IdTaken(codes: map<Text, Code>, id: nat) {
    exists k :: k in codes && codes[k].id == id
  }

  /** createBatch for the codes its generator produced; the batch id is fresh. */
  function CreateBatch(s: Shop, b: nat, names: seq<Text>, first: nat, value: nat, maxTotal: nat, maxPerUser: nat,
                       expires: Option<int>): Result
  {
    if value == 0 || |names| == 0 || |names| > 10_000 || b in s.batches then Err(BadInput) else
    match InsertCodes(s.codes, Keys(names), Code(first, b, value, maxTotal, maxPerUser, 0, Active, expires))
    case None => Err(DuplicateKey)
    case Some(m) => Ok(s.(codes := m, batches := s.batches[b := Batch(0, 0)]))
  }

  // ----- what every run keeps -----

  /** The counter is the number of redemption rows and respects the cap; a user redeems at most once,
      never beyond the per-user limit, and has redeemed exactly if the ledger has the key. */
  ghost predicate CodeOk(s: Shop, c: Code) {
    && c.uses == UsesOf(s.reds, c.id)
    && (c.maxTotal > 0 ==> c.uses <= c.maxTotal)
    && (forall u :: UserOk(s, c, u))
    && c.batch in s.batches
  }

  ghost predicate UserOk(s: Shop, c: Code, u: User) {
    && UsedBy(s.reds, c.id, u) <= c.maxPerUser
    && UsedBy(s.reds, c.id, u) == if Used(s.books, Redemption(c.id, u)) then 1 else 0
  }

  ghost predicate IdsUnique(codes: map<Text, Code>) {
    forall j, k :: j in codes && k in codes && codes[j].id == codes[k].id ==> j == k
  }

  /** Nothing refers to an id that is not a code's. */
  ghost predicate NoStrays(s: Shop) {
    forall id :: !IdTaken(s.codes, id) ==> Unused(s, id)
  }

  ghost predicate Unused(s: Shop, id: nat) {
    UsesOf(s.reds, id) == 0 && forall u :: UsedBy(s.reds, id, u) == 0 && !Used(s.books, Redemption(id, u))
  }

  ghost function Worth(c: Code): int {
    c.uses * c.value
  }

  ghost function UsesIn(codes: map<Text, Code>, b: nat): map<Text, int> {
    map k | k in codes && codes[k].batch == b :: codes[k].uses
  }

  ghost function CreditIn(codes: map<Text, Code>, b: nat): map<Text, int> {
    map k | k in codes && codes[k].batch == b :: Worth(codes[k])
  }

  ghost predicate BatchOk(s: Shop, b: nat)
    requires b in s.batches
  {
    s.batches[b] == Batch(Total(UsesIn(s.codes, b)), Total(CreditIn(s.codes, b)))
  }

  ghost predicate Accounted(s: Shop) {
    && (forall k :: k in s.codes ==> CodeOk(s, s.codes[k]))
    && IdsUnique(s.codes) && NoStrays(s)
    && (forall b :: b in s.batches ==> BatchOk(s, b))
  }

  lemma OneMore(reds: seq<Redemptions>, r: Redemptions)
    ensures forall id :: UsesOf(reds + [r], id) == UsesOf(reds, id) + if r.code == id then 1 else 0
    ensures forall id, u :: UsedBy(reds + [r], id, u) ==
              UsedBy(reds, id, u) + if r.code == id && r.user == u then 1 else 0
  {
    assert (reds + [r])[..|reds|] == reds;
  }

  lemma WorthBumped(c: Code, used: nat)
    ensures Worth(Bumped(c, used)) == Worth(c) + c.value
  {
  }

  lemma BumpTotals(codes: map<Text, Code>, k: Text, used: nat, b: nat)
    requires k in codes
    ensures var d := codes[k := Bumped(codes[k], used)];
            Total(UsesIn(d, b)) == Total(UsesIn(codes, b)) + (if codes[k].batch == b then 1 else 0) &&
            Total(CreditIn(d, b)) == Total(CreditIn(codes, b)) + (if codes[k].batch == b then codes[k].value else 0)
  {
    var c := codes[k];
    var d := codes[k := Bumped(c, used)];
    WorthBumped(c, used);
    if c.batch == b {
      TotalSet(UsesIn(codes, b), k, c.uses + 1);
      TotalSet(CreditIn(codes, b), k, Worth(c) + c.value);
      assert UsesIn(d, b) == UsesIn(codes, b)[k := c.uses + 1];
      assert CreditIn(d, b) == CreditIn(codes, b)[k := Worth(c) + c.value];
    } else {
      assert UsesIn(d, b) == UsesIn(codes, b) && CreditIn(d, b) == CreditIn(codes, b);
    }
  }

  /** The rows a redemption writes, as relations between the tables before and after. */
  ghost predicate Wrote(s: Shop, d: Shop, k: Text, user: User) {
    && k in s.codes
    && var c := s.codes[k];
       && (c.maxTotal == 0 || c.uses < c.maxTotal)
       && UsedBy(s.reds, c.id, user) < c.maxPerUser && !Used(s.books, Redemption(c.id, user))
       && d.codes == s.codes[k := Bumped(c, UsedBy(s.reds, c.id, user))]
       && d.reds == s.reds + [Redeemed(c.id, user, c.value)]
       && d.batches == BumpBatch(s.batches, c.batch, c.value)
       && (forall id, u :: Used(d.books, Redemption(id, u)) <==>
           Used(s.books, Redemption(id, u)) || (id == c.id && u == user))
  }

  lemma RedeemRows(s: Shop, user: User, raw: Text, now: int, d: Shop)
    requires Redeem(s, user, raw, now) == Ok(d)
    ensures Wrote(s, d, Normalize(raw), user) && Redeemable(s.codes[Normalize(raw)], now)
  {
    var c := s.codes[Normalize(raw)];
    forall id, u
      ensures Used(d.books, Redemption(id, u)) <==> Used(s.books, Redemption(id, u)) || (id == c.id && u == user)
    {
      PostUses(s.books, user, c.value, Some(Redemption(c.id, user)), Redemption(id, u));
    }
  }

  /** The effect of a redemption on the rows of another code. */
  ghost predicate SameFor(s: Shop, d: Shop, id: nat) {
    && UsesOf(d.reds, id) == UsesOf(s.reds, id)
    && (forall u :: UsedBy(d.reds, id, u) == UsedBy(s.reds, id, u))
    && (forall u :: Used(d.books, Redemption(id, u)) <==> Used(s.books, Redemption(id, u)))
  }

  lemma SameCodeOk(s: Shop, d: Shop, c: Code, c': Code)
    requires CodeOk(s, c) && SameFor(s, d, c.id) && (forall b :: b in s.batches ==> b in d.batches)
    requires c' == c.(status := c'.status, expires := c'.expires)
    ensures CodeOk(d, c')
  {
    forall u ensures UserOk(d, c', u) { assert UserOk(s, c, u); }
  }

  lemma RedeemedCodeOk(s: Shop, d: Shop, user: User, c: Code)
    requires CodeOk(s, c) && d.reds == s.reds + [Redeemed(c.id, user, c.value)] && c.batch in d.batches
    requires UsedBy(s.reds, c.id, user) < c.maxPerUser && !Used(s.books, Redemption(c.id, user))
    requires c.maxTotal == 0 || c.uses < c.maxTotal
    requires forall u :: Used(d.books, Redemption(c.id, u)) <==> Used(s.books, Redemption(c.id, u)) || u == user
    ensures CodeOk(d, Bumped(c, UsedBy(s.reds, c.id, user)))
  {
    var c' := Bumped(c, UsedBy(s.reds, c.id, user));
    OneMore(s.reds, Redeemed(c.id, user, c.value));
    forall u ensures UserOk(d, c', u) { assert UserOk(s, c, u); }
  }

  lemma IdsGrow(codes: map<Text, Code>, m: map<Text, Code>)
    requires forall k :: k in codes ==> k in m && m[k].id == codes[k].id
    ensures forall id :: IdTaken(codes, id) ==> IdTaken(m, id)
  {
    forall id | IdTaken(codes, id) ensures IdTaken(m, id) {
      var j :| j in codes && codes[j].id == id;
      assert m[j].id == id;
    }
  }

  lemma StraysKept(s: Shop, d: Shop)
    requires NoStrays(s) && forall id :: !IdTaken(d.codes, id) ==> !IdTaken(s.codes, id) && SameFor(s, d, id)
    ensures NoStrays(d)
  {
    forall id | !IdTaken(d.codes, id) ensures Unused(d, id) { assert Unused(s, id); }
  }

  lemma RedeemBatches(s: Shop, k: Text, used: nat, d: Shop)
    requires k in s.codes && d.codes == s.codes[k := Bumped(s.codes[k], used)]
    requires d.batches == BumpBatch(s.batches, s.codes[k].batch, s.codes[k].value)
    requires forall b :: b in s.batches ==> BatchOk(s, b)
    ensures forall b :: b in d.batches ==> BatchOk(d, b)
  {
    forall b | b in d.batches ensures BatchOk(d, b) {
      assert BatchOk(s, b);
      BumpTotals(s.codes, k, used, b);
    }
  }

  lemma RedeemOthers(s: Shop, d: Shop, user: User, c: Code)
    requires d.reds == s.reds + [Redeemed(c.id, user, c.value)]
    requires forall id, u :: Used(d.books, Redemption(id, u)) <==>
               Used(s.books, Redemption(id, u)) || (id == c.id && u == user)
    ensures forall id :: id != c.id ==> SameFor(s, d, id)
  {
    OneMore(s.reds, Redeemed(c.id, user, c.value));
  }

  lemma OtherCodesOk(s: Shop, d: Shop, k: Text)
    requires (forall j :: j in s.codes ==> CodeOk(s, s.codes[j])) && IdsUnique(s.codes) && k in s.codes
    requires (forall id :: id != s.codes[k].id ==> SameFor(s, d, id)) && (forall b :: b in s.batches ==> b in d.batches)
    requires d.codes.Keys == s.codes.Keys && forall j :: j in s.codes && j != k ==> d.codes[j] == s.codes[j]
    ensures forall j :: j in d.codes && j != k ==> CodeOk(d, d.codes[j])
  {
    forall j | j in d.codes && j != k ensures CodeOk(d, d.codes[j]) { SameCodeOk(s, d, s.codes[j], d.codes[j]); }
  }

  lemma WroteThis(s: Shop, d: Shop, k: Text, user: User)
    requires Wrote(s, d, k, user) && CodeOk(s, s.codes[k])
    ensures CodeOk(d, d.codes[k])
  {
    RedeemedCodeOk(s, d, user, s.codes[k]);
  }

  lemma WroteOthers(s: Shop, d: Shop, k: Text, user: User)
    requires Wrote(s, d, k, user) && (forall j :: j in s.codes ==> CodeOk(s, s.codes[j])) && IdsUnique(s.codes)
    ensures forall j :: j in d.codes && j != k ==> CodeOk(d, d.codes[j])
  {
    RedeemOthers(s, d, user, s.codes[k]);
    OtherCodesOk(s, d, k);
  }

  lemma WroteCodes(s: Shop, d: Shop, k: Text, user: User)
    requires Accounted(s) && Wrote(s, d, k, user)
    ensures forall j :: j in d.codes ==> CodeOk(d, d.codes[j])
  {
    WroteThis(s, d, k, user);
    WroteOthers(s, d, k, user);
  }

  lemma WroteStrays(s: Shop, d: Shop, k: Text, user: User)
    requires NoStrays(s) && Wrote(s, d, k, user)
    ensures NoStrays(d)
  {
    var c := s.codes[k];
    RedeemOthers(s, d, user, c);
    assert d.codes[k].id == c.id && IdTaken(d.codes, c.id);
    IdsGrow(s.codes, d.codes);
    StraysKept(s, d);
  }

  lemma WroteKeeps(s: Shop, d: Shop, k: Text, user: User)
    requires Accounted(s) && Wrote(s, d, k, user)
    ensures Accounted(d)
  {
    WroteCodes(s, d, k, user);
    WroteStrays(s, d, k, user);
    RedeemBatches(s, k, UsedBy(s.reds, s.codes[k].id, user), d);
  }

  lemma RedeemKeeps(s: Shop, user: User, raw: Text, now: int, d: Shop)
    requires Accounted(s) && Redeem(s, user, raw, now) == Ok(d)
    ensures Accounted(d)
  {
    RedeemRows(s, user, raw, now, d);
    WroteKeeps(s, d, Normalize(raw), user);
  }

  /** An edit touches status and expiry only. */
  ghost predicate Edited(s: Shop, d: Shop) {
    && d == s.(codes := d.codes) && d.codes.Keys == s.codes.Keys
    && forall k :: k in s.codes ==>
         d.codes[k] == s.codes[k].(status := d.codes[k].status, expires := d.codes[k].expires)
  }

  lemma EditTotals(s: Shop, d: Shop, b: nat)
    requires Edited(s, d)
    ensures UsesIn(d.codes, b) == UsesIn(s.codes, b)
    ensures CreditIn(d.codes, b) == CreditIn(s.codes, b)
  {
  }

  lemma EditCodes(s: Shop, d: Shop)
    requires (forall k :: k in s.codes ==> CodeOk(s, s.codes[k])) && Edited(s, d)
    ensures forall k :: k in d.codes ==> CodeOk(d, d.codes[k])
  {
    forall k | k in d.codes ensures CodeOk(d, d.codes[k]) { SameCodeOk(s, d, s.codes[k], d.codes[k]); }
  }

  lemma EditKeeps(s: Shop, d: Shop)
    requires Accounted(s) && Edited(s, d)
    ensures Accounted(d)
  {
    EditCodes(s, d);
    IdsGrow(s.codes, d.codes);
    StraysKept(s, d);
    forall b | b in d.batches ensures BatchOk(d, b) {
      assert BatchOk(s, b);
      EditTotals(s, d, b);
    }
  }

  lemma MoneyKeeps(s: Shop, user: User, amount: int, key: Option<IdemKey>)
    requires Accounted(s)
    ensures Accounted(OtherMoney(s, user, amount, key))
  {
    var d := OtherMoney(s, user, amount, key);
    if d != s {
      forall id, u ensures Used(d.books, Redemption(id, u)) <==> Used(s.books, Redemption(id, u)) {
        PostUses(s.books, user, amount, key, Redemption(id, u));
      }
      forall k | k in d.codes ensures CodeOk(d, d.codes[k]) { SameCodeOk(s, d, s.codes[k], d.codes[k]); }
      StraysKept(s, d);
      forall b | b in d.batches ensures BatchOk(d, b) { assert BatchOk(s, b); }
    }
  }

  /** Old rows stay, new rows are unused codes with ids nobody had. */
  ghost predicate Inserted(codes: map<Text, Code>, m: map<Text, Code>, proto: Code) {
    && (forall k :: k in codes ==> k in m && m[k] == codes[k])
    && (forall k :: k in m && k !in codes ==> m[k] == proto.(id := m[k].id) && !IdTaken(codes, m[k].id))
    && (IdsUnique(codes) ==> IdsUnique(m))
  }

  lemma InsertOne(codes: map<Text, Code>, m: map<Text, Code>, k: Text, c: Code, proto: Code)
    requires Inserted(codes, m, proto) && k !in m && !IdTaken(m, c.id) && !IdTaken(codes, c.id)
    requires c == proto.(id := c.id)
    ensures Inserted(codes, m[k := c], proto)
  {
  }

  lemma {:induction false} InsertIs(codes: map<Text, Code>, keys: seq<Text>, proto: Code, m: map<Text, Code>)
    requires InsertCodes(codes, keys, proto) == Some(m)
    ensures Inserted(codes, m, proto)
    decreases |keys|
  {
    if keys != [] {
      var n := |keys| - 1;
      var m1 := InsertCodes(codes, keys[..n], proto).value;
      InsertIs(codes, keys[..n], proto, m1);
      IdsGrow(codes, m1);
      InsertOne(codes, m1, keys[n], proto.(id := proto.id + n), proto);
    }
  }

  /** A committed batch has exactly the new texts, each once. */
  lemma {:induction false} InsertAdds(codes: map<Text, Code>, keys: seq<Text>, proto: Code, m: map<Text, Code>)
    requires InsertCodes(codes, keys, proto) == Some(m)
    ensures Distinct(keys) && m.Keys == codes.Keys + (set k | k in keys)
    ensures forall k :: k in keys ==> k !in codes
    decreases |keys|
  {
    if keys != [] {
      var n := |keys| - 1;
      InsertAdds(codes, keys[..n], proto, InsertCodes(codes, keys[..n], proto).value);
      assert keys == keys[..n] + [keys[n]];
    }
  }

  lemma CreateKeeps(s: Shop, d: Shop, b: nat, proto: Code)
    requires Accounted(s) && Inserted(s.codes, d.codes, proto) && proto.uses == 0 && proto.batch == b && b !in s.batches
    requires d == s.(codes := d.codes, batches := s.batches[b := Batch(0, 0)])
    ensures Accounted(d)
  {
    forall k | k in d.codes ensures CodeOk(d, d.codes[k]) {
      if k in s.codes {
        SameCodeOk(s, d, s.codes[k], d.codes[k]);
      } else {
        assert Unused(s, d.codes[k].id);
        forall u ensures UserOk(d, d.codes[k], u) { }
      }
    }
    IdsGrow(s.codes, d.codes);
    StraysKept(s, d);
    forall a | a in d.batches ensures BatchOk(d, a) { CreateBatchOk(s, d, b, proto, a); }
  }

  lemma CreateBatchOk(s: Shop, d: Shop, b: nat, proto: Code, a: nat)
    requires Accounted(s) && Inserted(s.codes, d.codes, proto) && proto.uses == 0 && proto.batch == b && b !in s.batches
    requires d == s.(codes := d.codes, batches := s.batches[b := Batch(0, 0)]) && a in d.batches
    ensures BatchOk(d, a)
  {
    if a == b { NewBatchZero(s, d, b, proto); } else { OldBatchSame(s, d, b, proto, a); }
  }

  lemma NewBatchZero(s: Shop, d: Shop, b: nat, proto: Code)
    requires Inserted(s.codes, d.codes, proto) && proto.uses == 0 && b !in s.batches
    requires forall k :: k in s.codes ==> CodeOk(s, s.codes[k])
    ensures Total(UsesIn(d.codes, b)) == 0 && Total(CreditIn(d.codes, b)) == 0
  {
    forall k | k in d.codes && d.codes[k].batch == b ensures d.codes[k].uses == 0 {
      assert k in s.codes ==> CodeOk(s, s.codes[k]);
    }
    TotalZero(UsesIn(d.codes, b));
    TotalZero(CreditIn(d.codes, b));
  }

  lemma OldBatchSame(s: Shop, d: Shop, b: nat, proto: Code, a: nat)
    requires Inserted(s.codes, d.codes, proto) && proto.batch == b && a != b
    ensures UsesIn(d.codes, a) == UsesIn(s.codes, a) && CreditIn(d.codes, a) == CreditIn(s.codes, a)
  {
  }

  // ----- runs -----

  datatype Event =
    | DoRedeem(user: User, raw: Text, at: int)
    | DoStatus(id: nat, st: CodeStatus)
    | DoExpiry(id: nat, x: Option<int>)
    | DoBatchStatus(b: nat, st: CodeStatus)
    | DoBatchExpiry(b: nat, x: Option<int>)
    | DoCreate(b: nat, names: seq<Text>, first: nat, value: nat, maxTotal: nat, maxPerUser: nat, x: Option<int>)
    | DoMoney(user: User, amount: int, key: Option<IdemKey>)
    | DoOpen(user: User)

  function Settle(s: Shop, r: Result): Shop {
    if r.Ok? then r.shop else s
  }

  ghost function Step(s: Shop, e: Event): Shop {
    match e
    case DoRedeem(user, raw, at) => Settle(s, Redeem(s, user, raw, at))
    case DoStatus(id, st) => SetStatus(s, id, st)
    case DoExpiry(id, x) => SetExpiry(s, id, x)
    case DoBatchStatus(b, st) => SetBatchStatus(s, b, st)
    case DoBatchExpiry(b, x) => SetBatchExpiry(s, b, x)
    case DoCreate(b, names, first, value, maxTotal, maxPerUser, x) =>
      Settle(s, CreateBatch(s, b, names, first, value, maxTotal, maxPerUser, x))
    case DoMoney(user, amount, key) => OtherMoney(s, user, amount, key)
    case DoOpen(user) => s.(books := Open(s.books, user))
  }

  ghost function Run(s: Shop, es: seq<Event>): Shop
    decreases |es|
  {
    if es == [] then s else Step(Run(s, es[..|es| - 1]), es[|es| - 1])
  }

  lemma OpenAccounted(s: Shop, user: User)
    requires Accounted(s)
    ensures Accounted(s.(books := Open(s.books, user)))
  {
    var d := s.(books := Open(s.books, user));
    assert d.books.rows == s.books.rows;
    assert forall id :: SameFor(s, d, id);
    forall k | k in d.codes ensures CodeOk(d, d.codes[k]) { SameCodeOk(s, d, s.codes[k], d.codes[k]); }
    StraysKept(s, d);
    forall b | b in d.batches ensures BatchOk(d, b) { assert BatchOk(s, b); }
  }

  lemma CreateStep(s: Shop, b: nat, names: seq<Text>, first: nat, value: nat, maxTotal: nat, maxPerUser: nat,
                   x: Option<int>)
    requires Accounted(s)
    ensures Accounted(Settle(s, CreateBatch(s, b, names, first, value, maxTotal, maxPerUser, x)))
  {
    var r := CreateBatch(s, b, names, first, value, maxTotal, maxPerUser, x);
    if r.Ok? {
      var proto := Code(first, b, value, maxTotal, maxPerUser, 0, Active, x);
      InsertIs(s.codes, Keys(names), proto, r.shop.codes);
      CreateKeeps(s, r.shop, b, proto);
    }
  }

  lemma EditsAre(s: Shop, e: Event)
    requires e.DoStatus? || e.DoExpiry? || e.DoBatchStatus? || e.DoBatchExpiry?
    ensures Edited(s, Step(s, e))
  {
  }

  lemma EditStep(s: Shop, e: Event)
    requires Accounted(s) && (e.DoStatus? || e.DoExpiry? || e.DoBatchStatus? || e.DoBatchExpiry?)
    ensures Accounted(Step(s, e))
  {
    EditsAre(s, e);
    EditKeeps(s, Step(s, e));
  }

  lemma RedeemStep(s: Shop, user: User, raw: Text, at: int)
    requires Accounted(s)
    ensures Accounted(Settle(s, Redeem(s, user, raw, at)))
  {
    var r := Redeem(s, user, raw, at);
    if r.Ok? { RedeemKeeps(s, user, raw, at, r.shop); }
  }

  lemma StepAccounted(s: Shop, e: Event)
    requires Accounted(s)
    ensures Accounted(Step(s, e))
  {
    match e
    case DoRedeem(user, raw, at) => RedeemStep(s, user, raw, at);
    case DoStatus(_, _) => EditStep(s, e);
    case DoExpiry(_, _) => EditStep(s, e);
    case DoBatchStatus(_, _) => EditStep(s, e);
    case DoBatchExpiry(_, _) => EditStep(s, e);
    case DoCreate(b, names, first, value, maxTotal, maxPerUser, x) =>
      CreateStep(s, b, names, first, value, maxTotal, maxPerUser, x);
    case DoMoney(user, amount, key) => MoneyKeeps(s, user, amount, key);
    case DoOpen(user) => OpenAccounted(s, user);
  }

  /** Redemption accounting over every run. */
  lemma {:induction false} AccountingKept(s: Shop, es: seq<Event>)
    requires Accounted(s)
    ensures Accounted(Run(s, es))
    decreases |es|
  {
    if es != [] {
      AccountingKept(s, es[..|es| - 1]);
      StepAccounted(Run(s, es[..|es| - 1]), es[|es| - 1]);
    }
  }

  /** The money side: a redemption posts exactly the code's value under its own key, so the ledger
      stays balanced. */
  lemma RedeemConserves(s: Shop, user: User, raw: Text, now: int)
    requires Balanced(s.books) && Redeem(s, user, raw, now).Ok?
    ensures Balanced(Redeem(s, user, raw, now).shop.books)
  {
    var c := s.codes[Normalize(raw)];
    assert WalletOk(s.books, user);
    PostKeeps(s.books, user, c.value, Some(Redemption(c.id, user)));
  }

  lemma StepConserves(s: Shop, e: Event)
    requires Balanced(s.books)
    ensures Balanced(Step(s, e).books)
  {
    match e
    case DoRedeem(user, raw, at) => if Redeem(s, user, raw, at).Ok? { RedeemConserves(s, user, raw, at); }
    case DoMoney(user, amount, key) =>
      if OtherMoney(s, user, amount, key) != s { PostKeeps(s.books, user, amount, key); }
    case DoOpen(user) => OpenKeeps(s.books, user);
    case _ =>
  }

  lemma {:induction false} CodesConserve(s: Shop, es: seq<Event>)
    requires Balanced(s.books)
    ensures Balanced(Run(s, es).books)
    decreases |es|
  {
    if es != [] {
      CodesConserve(s, es[..|es| - 1]);
      StepConserves(Run(s, es[..|es| - 1]), es[|es| - 1]);
    }
  }

  /** The wallet half of a redemption is the control plane's credit step. */
  lemma RedeemIsCredit(s: Shop, user: User, raw: Text, now: int, db: Tables.Db, c: Code)
    requires Redeem(s, user, raw, now).Ok? && db.books == s.books
    requires Normalize(raw) in s.codes && c == s.codes[Normalize(raw)]
    ensures Tables.RedeemCredit(db, user, c.id, c.value) ==
              Tables.Done(db.(books := Redeem(s, user, raw, now).shop.books))
  {
    assert Redeem(s, user, raw, now).shop.books == Post(s.books, user, c.value, Some(Redemption(c.id, user)));
  }

  /** When a redemption goes through: the limit per user acts as a limit of one, whatever its value,
      because the idempotency key names only the code and the user. */
  lemma RedeemIff(s: Shop, user: User, raw: Text, now: int)
    requires Accounted(s)
    ensures var k := Normalize(raw);
            Redeem(s, user, raw, now).Ok? <==>
              && |k| >= 4 && k in s.codes
              && var c := s.codes[k];
                 && c.status == Active && (c.maxTotal == 0 || c.uses < c.maxTotal)
                 && (c.expires.None? || now < c.expires.value)
                 && c.maxPerUser >= 1 && user in s.books.wallets && UsedBy(s.reds, c.id, user) == 0
  {
    var k := Normalize(raw);
    if k in s.codes { assert CodeOk(s, s.codes[k]) && UserOk(s, s.codes[k], user); }
  }

  /** However high the limit per user, the second use breaks the unique key. */
  lemma SecondUseRefused(s: Shop, user: User, raw: Text, now: int, d: Shop, k: Text, later: int)
    requires Accounted(s) && Redeem(s, user, raw, now) == Ok(d)
    requires k == Normalize(raw) && k in d.codes && Redeemable(d.codes[k], later) && d.codes[k].maxPerUser >= 2
    ensures Redeem(d, user, raw, later) == Err(DuplicateKey)
  {
    RedeemRows(s, user, raw, now, d);
    RedeemIff(s, user, raw, now);
    var c := s.codes[Normalize(raw)];
    OneMore(s.reds, Redeemed(c.id, user, c.value));
  }

  /** One unlimited code, worth 5, that promises two uses per user. */
  function TwoUses(): Shop {
    Shop(Books(map[0 := Wallet(0, 0, 0)], []), map["AAAA" := Code(0, 0, 5, 0, 2, 0, Active, None)],
         map[0 := Batch(0, 0)], [])
  }

  lemma TwoUsesAccounted()
    ensures Accounted(TwoUses())
  {
    var s := TwoUses();
    TotalZero(UsesIn(s.codes, 0));
    TotalZero(CreditIn(s.codes, 0));
    assert forall u :: UserOk(s, s.codes["AAAA"], u);
    assert forall id :: Unused(s, id);
  }

  /** So the promised second use fails on a concrete shop. */
  lemma SecondUseExample()
    ensures Redeem(TwoUses(), 0, "AAAA", 0).Ok?
    ensures Redeem(Redeem(TwoUses(), 0, "AAAA", 0).shop, 0, "AAAA", 0) == Err(DuplicateKey)
  {
    TwoUsesAccounted();
    NormalizePlain("AAAA");
    RedeemIff(TwoUses(), 0, "AAAA", 0);
    var d := Redeem(TwoUses(), 0, "AAAA", 0).shop;
    SecondUseRefused(TwoUses(), 0, "AAAA", 0, d, "AAAA", 0);
  }

  /** A redemption marks the code exhausted only when the cap is one; a larger cap is enforced by the
      counter while the status stays active. */
  lemma ExhaustedIff(s: Shop, user: User, raw: Text, now: int)
    requires Accounted(s) && Redeem(s, user, raw, now).Ok?
    ensures var k := Normalize(raw);
            Redeem(s, user, raw, now).shop.codes[k].status == Exhausted <==> s.codes[k].maxTotal == 1
  {
    var k := Normalize(raw);
    RedeemIff(s, user, raw, now);
    assert CodeOk(s, s.codes[k]);
  }

  ghost predicate AtCap(s: Shop, k: Text) {
    k in s.codes && s.codes[k].maxTotal > 0 && s.codes[k].uses >= s.codes[k].maxTotal
  }

  /** Rows are never removed, and caps, ids and values never edited. */
  lemma StepKeepsCode(s: Shop, e: Event, k: Text)
    requires k in s.codes
    ensures var d := Step(s, e);
            k in d.codes && d.codes[k].maxTotal == s.codes[k].maxTotal && d.codes[k].uses >= s.codes[k].uses &&
            (AtCap(s, k) ==> d.codes[k].uses == s.codes[k].uses)
  {
    if e.DoCreate? && Step(s, e) != s {
      InsertIs(s.codes, Keys(e.names), Code(e.first, e.b, e.value, e.maxTotal, e.maxPerUser, 0, Active, e.x),
               Step(s, e).codes);
    }
  }

  /** A code at its cap is never redeemed again, whatever the admin sets its status or expiry to. */
  lemma {:induction false} CapIsFinal(s: Shop, es: seq<Event>, k: Text, user: User, raw: Text, now: int)
    requires AtCap(s, k)
    ensures AtCap(Run(s, es), k) && Run(s, es).codes[k].uses == s.codes[k].uses
    ensures Normalize(raw) == k ==> Redeem(Run(s, es), user, raw, now).Err?
    decreases |es|
  {
    if es != [] {
      CapIsFinal(s, es[..|es| - 1], k, user, raw, now);
      StepKeepsCode(Run(s, es[..|es| - 1]), es[|es| - 1], k);
    }
  }

  // ----- the service -----

  ghost predicate Clear(codes: map<Text, Code>, keys: seq<Text>, first: nat) {
    forall i :: 0 <= i < |keys| ==> ClearAt(codes, keys[i], first + i)
  }

  ghost predicate ClearAt(codes: map<Text, Code>, k: Text, id: nat) {
    k !in codes && !IdTaken(codes, id)
  }

  lemma ClearInit(codes: map<Text, Code>, keys: seq<Text>, first: nat)
    requires keys != []
    ensures var n := |keys| - 1;
            Clear(codes, keys, first) <==> Clear(codes, keys[..n], first) && ClearAt(codes, keys[n], first + n)
  {
    var n := |keys| - 1;
    assert forall i :: 0 <= i < n ==> keys[i] == keys[..n][i];
  }

  /** The bulk insert fails only on a clash: with a stored text, a repeated text, or a taken id. */
  lemma {:induction false} InsertIff(codes: map<Text, Code>, keys: seq<Text>, proto: Code)
    ensures InsertCodes(codes, keys, proto).Some? <==>
              Distinct(keys) && Clear(codes, keys, proto.id)
    decreases |keys|
  {
    if keys != [] {
      var n := |keys| - 1;
      ClearInit(codes, keys, proto.id);
      InsertIff(codes, keys[..n], proto);
      assert keys == keys[..n] + [keys[n]];
      var before := InsertCodes(codes, keys[..n], proto);
      if before.Some? {
        InsertAdds(codes, keys[..n], proto, before.value);
        InsertIds(codes, keys[..n], proto, before.value, proto.id + n);
      }
      assert Distinct(keys) ==> Distinct(keys[..n]) && keys[n] !in keys[..n];
      assert Distinct(keys[..n]) && keys[n] !in keys[..n] ==> Distinct(keys);
    }
  }

  lemma {:induction false} InsertIds(codes: map<Text, Code>, keys: seq<Text>, proto: Code, m: map<Text, Code>, id: nat)
    requires InsertCodes(codes, keys, proto) == Some(m)
    ensures IdTaken(m, id) <==> IdTaken(codes, id) || proto.id <= id < proto.id + |keys|
    decreases |keys|
  {
    if keys != [] {
      var n := |keys| - 1;
      var m1 := InsertCodes(codes, keys[..n], proto).value;
      InsertIds(codes, keys[..n], proto, m1, id);
      assert m[keys[n]].id == proto.id + n;
      IdsGrow(m1, m);
    }
  }

  class CodesService {
    var books: Books
    var codes: map<Text, Code>
    var batches: map<nat, Batch>
    var reds: seq<Redemptions>

    ghost function View(): Shop
      reads this
    {
      Shop(books, codes, batches, reds)
    }

    /** redeem: the counter moves first, and a later refusal rolls the transaction back. */
    method RedeemCode(user: User, raw: Text, now: int) returns (error: Option<Refusal>)
      modifies this
      ensures match Redeem(old(View()), user, raw, now)
              case Ok(d) => error.None? && View() == d
              case Err(e) => error == Some(e) && View() == old(View())
    {
      var k := Normalize(raw);
      if |k| < 4 { return Some(InvalidCode); }
      var before := codes;
      if k !in codes || !Redeemable(codes[k], now) { return Some(InvalidCode); }
      codes := codes[k := codes[k].(uses := codes[k].uses + 1)];
      var c := codes[k];
      var used := UsedBy(reds, c.id, user);
      if used >= c.maxPerUser {
        codes := before;
        return Some(PerUserLimit);
      }
      if user !in books.wallets {
        codes := before;
        return Some(NoWallet);
      }
      var key := Redemption(c.id, user);
      if Used(books, key) {
        codes := before;
        return Some(DuplicateKey);
      }
      books := Post(books, user, c.value, Some(key));
      reds := reds + [Redeemed(c.id, user, c.value)];
      batches := BumpBatch(batches, c.batch, c.value);
      if c.maxTotal > 0 && used + 1 >= c.maxTotal {
        if c.uses >= c.maxTotal { codes := codes[k := c.(status := Exhausted)]; }
      }
      return None;
    }
  }

  /** createBatch's generator: draw until there are enough, discarding what was seen before.  The
      random draws are a parameter; `used` of them are consumed. */
  method DrawCodes(count: nat, draws: seq<Text>) returns (names: seq<Text>, used: nat)
    ensures used <= |draws| && |names| <= count && (|names| == count || used == |draws|)
    ensures Distinct(Keys(names)) && (forall n :: n in names ==> n in draws[..used])
    ensures forall i :: 0 <= i < used ==> Normalize(draws[i]) in Keys(names)
  {
    names, used := [], 0;
    var seen: set<Text> := {};
    while |names| < count && used < |draws|
      invariant used <= |draws| && |names| <= count
      invariant Distinct(Keys(names)) && (forall n :: n in names ==> n in draws[..used])
      invariant forall k :: k in seen <==> k in Keys(names)
      invariant forall i :: 0 <= i < used ==> Normalize(draws[i]) in seen
      decreases |draws| - used
    {
      var c := draws[used];
      var n := Normalize(c);
      assert draws[..used + 1] == draws[..used] + [c];
      used := used + 1;
      if n !in seen {
        seen := seen + {n};
        assert Keys(names + [c]) == Keys(names) + [n];
        names := names + [c];
      }
    }
  }
}
