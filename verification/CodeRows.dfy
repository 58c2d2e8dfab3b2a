/** What redemptions, admin edits and new batches write, row by row, and why a redemption is refused
    (apps/api/src/codes/codes.service.ts). */
module CodeRows {
  import opened Common
  import opened Ledger
  import opened Codes
  import Effects

  /** A code that may be used now: active, its total not used up, and not expired at this instant. */
  ghost predicate Usable(s: Shop, k: Text, now: int) {
    && |k| >= 4 && k in s.codes
    && s.codes[k].status == Active && (s.codes[k].maxTotal == 0 || s.codes[k].uses < s.codes[k].maxTotal)
    && (s.codes[k].expires.Some? ==> s.codes[k].expires.value > now)
  }

  ghost predicate RedeemedBefore(s: Shop, id: nat, user: User) {
    exists i :: 0 <= i < |s.reds| && s.reds[i].code == id && s.reds[i].user == user
  }

  lemma {:induction false} UsedByRows(reds: seq<Redemptions>, id: nat, user: User)
    ensures UsedBy(reds, id, user) > 0 <==> exists i :: 0 <= i < |reds| && reds[i].code == id && reds[i].user == user
    decreases |reds|
  {
    if reds != [] {
      var n := |reds| - 1;
      UsedByRows(reds[..n], id, user);
      if UsedBy(reds[..n], id, user) > 0 {
        var i :| 0 <= i < n && reds[..n][i].code == id && reds[..n][i].user == user;
        assert reds[i].code == id && reds[i].user == user;
      }
      forall i | 0 <= i < n && reds[i].code == id && reds[i].user == user ensures UsedBy(reds[..n], id, user) > 0 {
        assert reds[..n][i] == reds[i];
      }
    }
  }

  /** Each refusal has its own cause: the code is not usable; it was used by this user under a limit of one, or
      its limit is zero; the user has no wallet; or it was used before under a higher limit. */
  lemma RefusedBecause(s: Shop, user: User, raw: Text, now: int)
    requires Accounted(s)
    ensures var k := Normalize(raw); var r := Redeem(s, user, raw, now);
            && (r == Err(InvalidCode) <==> !Usable(s, k, now))
            && (Usable(s, k, now) ==>
                  var c := s.codes[k]; var before := RedeemedBefore(s, c.id, user);
                  && (r == Err(PerUserLimit) <==> c.maxPerUser == 0 || (c.maxPerUser == 1 && before))
                  && (r == Err(NoWallet) <==> c.maxPerUser >= 1 && !(c.maxPerUser == 1 && before) &&
                                              user !in s.books.wallets)
                  && (r == Err(DuplicateKey) <==> c.maxPerUser >= 2 && before && user in s.books.wallets))
  {
    var k := Normalize(raw);
    if k in s.codes {
      assert CodeOk(s, s.codes[k]) && UserOk(s, s.codes[k], user);
      UsedByRows(s.reds, s.codes[k].id, user);
    }
  }

  /** The rows of a redemption of code c under text k. */
  ghost predicate Wrote(s: Shop, d: Shop, k: Text, c: Code, user: User) {
    && Effects.Posted(s.books, d.books, user, c.value, Some(Redemption(c.id, user)))
    && d.codes == s.codes[k := c.(uses := c.uses + 1, status := if c.maxTotal == 1 then Exhausted else Active)]
    && c.batch in s.batches
    && d.batches == s.batches[c.batch := Batch(s.batches[c.batch].redeemed + 1, s.batches[c.batch].credit + c.value)]
    && d.reds == s.reds + [Redeemed(c.id, user, c.value)]
  }

  lemma RedeemedShop(s: Shop, user: User, raw: Text, now: int, d: Shop, k: Text, c: Code)
    requires Redeem(s, user, raw, now) == Ok(d) && k == Normalize(raw) && k in s.codes && c == s.codes[k]
    ensures user in s.books.wallets && d.books == Post(s.books, user, c.value, Some(Redemption(c.id, user)))
    ensures d.codes == s.codes[k := Bumped(c, UsedBy(s.reds, c.id, user))]
    ensures d.batches == BumpBatch(s.batches, c.batch, c.value) && d.reds == s.reds + [Redeemed(c.id, user, c.value)]
  {
  }

  lemma FirstBump(c: Code)
    requires c.status == Active && c.uses >= 0 && (c.maxTotal == 0 || c.uses < c.maxTotal)
    ensures Bumped(c, 0) == c.(uses := c.uses + 1, status := if c.maxTotal == 1 then Exhausted else Active)
  {
  }

  lemma WroteFrom(s: Shop, d: Shop, k: Text, c: Code, user: User)
    requires k in s.codes && c == s.codes[k] && c.batch in s.batches && user in s.books.wallets
    requires c.status == Active && c.uses >= 0 && (c.maxTotal == 0 || c.uses < c.maxTotal)
    requires d.books == Post(s.books, user, c.value, Some(Redemption(c.id, user))) && d.codes == s.codes[k := Bumped(c, 0)]
    requires d.batches == BumpBatch(s.batches, c.batch, c.value) && d.reds == s.reds + [Redeemed(c.id, user, c.value)]
    ensures Wrote(s, d, k, c, user)
  {
    FirstBump(c);
    Effects.PostIs(s.books, user, c.value, Some(Redemption(c.id, user)));
  }

  lemma RedeemedCode(s: Shop, user: User, raw: Text, now: int, k: Text)
    requires Accounted(s) && Redeem(s, user, raw, now).Ok? && k == Normalize(raw)
    ensures k in s.codes
    ensures var c := s.codes[k];
            && c.status == Active && c.uses >= 0 && (c.maxTotal == 0 || c.uses < c.maxTotal) && c.batch in s.batches
            && UsedBy(s.reds, c.id, user) == 0
  {
    RedeemIff(s, user, raw, now);
    assert CodeOk(s, s.codes[k]);
  }

  /** A redemption credits the code's value, once, under its own key; it counts one use on the code and on the
      batch, adds one redemption row, and marks the code exhausted only when its cap is one. */
  lemma RedeemDoes(s: Shop, user: User, raw: Text, now: int, d: Shop, k: Text)
    requires Accounted(s) && Redeem(s, user, raw, now) == Ok(d) && k == Normalize(raw)
    ensures k in s.codes && Wrote(s, d, k, s.codes[k], user)
  {
    RedeemedCode(s, user, raw, now, k);
    RedeemedShop(s, user, raw, now, d, k, s.codes[k]);
    WroteFrom(s, d, k, s.codes[k], user);
  }

  /** The rows that an edit names have the new value, and nothing else changes. */
  ghost predicate OnlyCodes(s: Shop, d: Shop) {
    d == s.(codes := d.codes) && d.codes.Keys == s.codes.Keys
  }

  lemma EditsDo(s: Shop, id: nat, st: CodeStatus, x: Option<int>)
    ensures var d := SetStatus(s, id, st);
            OnlyCodes(s, d) && forall k :: k in s.codes ==>
              d.codes[k] == if s.codes[k].id == id then s.codes[k].(status := st) else s.codes[k]
    ensures var d := SetExpiry(s, id, x);
            OnlyCodes(s, d) && forall k :: k in s.codes ==>
              d.codes[k] == if s.codes[k].id == id then s.codes[k].(expires := x) else s.codes[k]
    ensures var d := SetBatchStatus(s, id, st);
            OnlyCodes(s, d) && forall k :: k in s.codes ==>
              d.codes[k] == if s.codes[k].batch == id then s.codes[k].(status := st) else s.codes[k]
    ensures var d := SetBatchExpiry(s, id, x);
            OnlyCodes(s, d) && forall k :: k in s.codes ==>
              d.codes[k] == if s.codes[k].batch == id then s.codes[k].(expires := x) else s.codes[k]
  {
  }

  /** Once an edit has paused or revoked a code, expired it, or done either to its batch, nobody redeems it; and
      the edits that lift this let it be used again. */
  lemma EditedUsable(s: Shop, k: Text, st: CodeStatus, x: Option<int>, now: int)
    requires k in s.codes && |k| >= 4
    ensures var c := s.codes[k]; var left := c.maxTotal == 0 || c.uses < c.maxTotal;
            && (forall d: Shop :: (d == SetStatus(s, c.id, st) || d == SetBatchStatus(s, c.batch, st)) ==>
                  (Usable(d, k, now) <==> st == Active && left && (c.expires.Some? ==> c.expires.value > now)))
            && (forall d: Shop :: (d == SetExpiry(s, c.id, x) || d == SetBatchExpiry(s, c.batch, x)) ==>
                  (Usable(d, k, now) <==> c.status == Active && left && (x.Some? ==> x.value > now)))
  {
    EditsDo(s, s.codes[k].id, st, x);
    EditsDo(s, s.codes[k].batch, st, x);
  }

  lemma {:induction false} InsertedAt(codes: map<Text, Code>, keys: seq<Text>, proto: Code, m: map<Text, Code>, i: nat)
    requires InsertCodes(codes, keys, proto) == Some(m) && i < |keys|
    ensures keys[i] in m && m[keys[i]] == proto.(id := proto.id + i)
    decreases |keys|
  {
    var n := |keys| - 1;
    if i < n {
      InsertedAt(codes, keys[..n], proto, InsertCodes(codes, keys[..n], proto).value, i);
    }
  }

  /** createBatch: refused exactly for a bad value, count or batch id, or a clash of texts or ids; otherwise the
      i-th text names a new, unused, active code with the batch's terms, the batch starts at zero, and the
      codes that were there stay as they were. */
  lemma CreateBatchDoes(s: Shop, b: nat, names: seq<Text>, first: nat, value: nat, maxTotal: nat, maxPerUser: nat,
                        x: Option<int>)
    ensures var r := CreateBatch(s, b, names, first, value, maxTotal, maxPerUser, x);
            && (r.Ok? <==> value > 0 && 1 <= |names| <= 10_000 && b !in s.batches && Distinct(Keys(names)) &&
                           Clear(s.codes, Keys(names), first))
            && (r.Ok? ==>
                  && r.shop == s.(codes := r.shop.codes, batches := s.batches[b := Batch(0, 0)])
                  && (forall i :: 0 <= i < |names| ==> NewCode(r.shop, Normalize(names[i]),
                        Code(first + i, b, value, maxTotal, maxPerUser, 0, Active, x)))
                  && (forall k :: k in s.codes ==> k in r.shop.codes && r.shop.codes[k] == s.codes[k])
                  && forall k :: k in r.shop.codes && k !in s.codes ==> k in Keys(names))
  {
    var proto := Code(first, b, value, maxTotal, maxPerUser, 0, Active, x);
    var keys := Keys(names);
    InsertIff(s.codes, keys, proto);
    var r := CreateBatch(s, b, names, first, value, maxTotal, maxPerUser, x);
    if r.Ok? {
      var m := InsertCodes(s.codes, keys, proto).value;
      InsertIs(s.codes, keys, proto, m);
      InsertAdds(s.codes, keys, proto, m);
      forall i | 0 <= i < |names|
        ensures NewCode(r.shop, Normalize(names[i]), Code(first + i, b, value, maxTotal, maxPerUser, 0, Active, x))
      {
        InsertedAt(s.codes, keys, proto, m, i);
      }
    }
  }

  ghost predicate NewCode(s: Shop, k: Text, c: Code) {
    k in s.codes && s.codes[k] == c
  }
}
