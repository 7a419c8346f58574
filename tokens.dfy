/** The demo-token table of backend/api/token_management_views.py: rows of
    `token_managements` (a token, the client IP, a generation count and an
    expiry), swept, looked up, created and counted. The clock reading and
    JWT verification are parameters. */
module TokenManagement {
  import opened Wrappers

  /** The ceiling a demo token may generate before it is refused. */
  const GenerationLimit: int := 5

  /** `timedelta(hours=1)`, with the clock counted in seconds. */
  const TokenLifetime: int := 3600

  /** A row of `token_managements`; times are clock readings in seconds. */
  datatype TokenRecord = TokenRecord(id: int, token: string, ip: string, count: int, expiry: int, createdAt: int)

  /** The claims of a verified JWT that the views read: its `ip` claim,
      `None` when absent or empty. */
  datatype Claims = Claims(ip: Option<string>)

  /** The sweep `DELETE ... WHERE expiry < now` keeps the other rows, in
      order. */
  function Swept(rs: seq<TokenRecord>, now: int): (kept: seq<TokenRecord>)
    ensures |kept| <= |rs|
  {
    if rs == [] then []
    else
      var last := rs[|rs| - 1];
      Swept(rs[..|rs| - 1], now) + (if last.expiry < now then [] else [last])
  }

  /** How many rows the sweep deletes (`cursor.rowcount`). */
  function ExpiredCount(rs: seq<TokenRecord>, now: int): nat
  {
    if rs == [] then 0
    else ExpiredCount(rs[..|rs| - 1], now) + (if rs[|rs| - 1].expiry < now then 1 else 0)
  }

  /** A row the lookups accept: `expiry > now`. */
  predicate Live(r: TokenRecord, now: int)
  {
    r.expiry > now
  }

  /** The rows `WHERE token = %s AND ip_address = %s AND expiry > %s`. */
  predicate Matches(r: TokenRecord, token: string, ip: string, now: int)
  {
    r.token == token && r.ip == ip && Live(r, now)
  }

  /** `fetchone()` of the token and IP lookup: the first matching row in
      table order. */
  function FirstMatch(rs: seq<TokenRecord>, token: string, ip: string, now: int): (i: Option<nat>)
    ensures i.Some? ==> i.value < |rs| && Matches(rs[i.value], token, ip, now)
    ensures i.Some? ==> forall j :: 0 <= j < i.value ==> !Matches(rs[j], token, ip, now)
    ensures i.None? ==> forall j :: 0 <= j < |rs| ==> !Matches(rs[j], token, ip, now)
  {
    if rs == [] then None
    else
      var init := rs[..|rs| - 1];
      var found := FirstMatch(init, token, ip, now);
      if found.Some? then found
      else if Matches(rs[|rs| - 1], token, ip, now) then Some(|rs| - 1)
      else None
  }

  /** `WHERE ip_address = %s AND expiry > %s ORDER BY created_at DESC
      LIMIT 1`: the newest live row of the IP (the first of equally new
      ones). */
  function LatestFor(rs: seq<TokenRecord>, ip: string, now: int): (i: Option<nat>)
    ensures i.Some? ==> i.value < |rs| && rs[i.value].ip == ip && Live(rs[i.value], now)
  {
    if rs == [] then None
    else
      var best := LatestFor(rs[..|rs| - 1], ip, now);
      var last := rs[|rs| - 1];
      if last.ip == ip && Live(last, now) && (best.None? || last.createdAt > rs[best.value].createdAt)
      then Some(|rs| - 1)
      else best
  }

  /** `SET generation_count = count + 1 WHERE id = %s`. */
  function Bumped(rs: seq<TokenRecord>, id: int): (rs': seq<TokenRecord>)
    ensures |rs'| == |rs|
  {
    seq(|rs|, i requires 0 <= i < |rs| => if rs[i].id == id then rs[i].(count := rs[i].count + 1) else rs[i])
  }

  /** `SET generation_count = n WHERE token = %s AND ip_address = %s`, on
      live and expired rows alike. */
  function Recounted(rs: seq<TokenRecord>, token: string, ip: string, n: int): (rs': seq<TokenRecord>)
    ensures |rs'| == |rs|
  {
    seq(|rs|, i requires 0 <= i < |rs| =>
      if rs[i].token == token && rs[i].ip == ip then rs[i].(count := n) else rs[i])
  }

  predicate DistinctIds(rs: seq<TokenRecord>)
  {
    forall i, j :: 0 <= i < j < |rs| ==> rs[i].id != rs[j].id
  }

  /** The table of `token_managements`, with the next value of its `id`
      sequence. */
  class TokenTable {
    var records: seq<TokenRecord>
    var nextId: int

    /** Ids are distinct and below the sequence; counts are never negative. */
    predicate Valid()
      reads this
    {
      && DistinctIds(records)
      && (forall i :: 0 <= i < |records| ==> records[i].id < nextId)
      && (forall i :: 0 <= i < |records| ==> records[i].count >= 0)
    }

    constructor ()
      ensures Valid() && records == [] && nextId == 0
    {
      records := [];
      nextId := 0;
    }

    /** `DELETE FROM token_managements WHERE expiry < now`. */
    method Sweep(now: int) returns (deleted: nat)
      requires Valid()
      modifies this
      ensures Valid()
      ensures records == Swept(old(records), now) && nextId == old(nextId)
      ensures deleted == ExpiredCount(old(records), now)
    {
      SweptValid(records, nextId, now);
      SweptSize(records, now);
      deleted := |records| - |Swept(records, now)|;
      records := Swept(records, now);
    }

    /** `get_token_by_ip`: 400 without an IP, otherwise the sweep, then the
        newest live row of the IP (200) or 404. */
    method GetTokenByIp(ip: string, now: int) returns (status: int, found: Option<TokenRecord>)
      requires Valid()
      modifies this
      ensures Valid() && nextId == old(nextId)
      ensures ip == "" ==> status == 400 && found.None? && records == old(records)
      ensures ip != "" ==> records == Swept(old(records), now)
      ensures ip != "" ==> match LatestFor(records, ip, now)
                           case Some(i) => status == 200 && found == Some(records[i])
                           case None => status == 404 && found.None?
    {
      if ip == "" {
        return 400, None;
      }
      var _ := Sweep(now);
      var i := LatestFor(records, ip, now);
      if i.Some? {
        status, found := 200, Some(records[i.value]);
      } else {
        status, found := 404, None;
      }
    }

    /** `create_or_get_token`: the three 400s leave the table alone; then the
        sweep, and the newest live row of the IP is returned as it is (200),
        or a fresh row with count 0 that expires an hour from now is
        inserted (201). */
    method CreateOrGetToken(token: string, ip: string, now: int, verify: string -> Option<Claims>)
      returns (status: int, found: Option<TokenRecord>)
      requires Valid()
      modifies this
      ensures Valid()
      ensures status == 400 <==>
              token == "" || ip == "" || verify(token).None? || verify(token).value.ip != Some(ip)
      ensures status == 400 ==> found.None? && records == old(records) && nextId == old(nextId)
      ensures status == 200 ==>
                records == Swept(old(records), now) && nextId == old(nextId)
                && LatestFor(records, ip, now).Some? && found == Some(records[LatestFor(records, ip, now).value])
      ensures status == 201 ==>
                LatestFor(Swept(old(records), now), ip, now).None?
                && found == Some(TokenRecord(old(nextId), token, ip, 0, now + TokenLifetime, now))
                && records == Swept(old(records), now) + [found.value] && nextId == old(nextId) + 1
      ensures status in {400, 200, 201}
    {
      if token == "" || ip == "" {
        return 400, None;
      }
      var claims := verify(token);
      if claims.None? || claims.value.ip != Some(ip) {
        return 400, None;
      }
      var _ := Sweep(now);
      var i := LatestFor(records, ip, now);
      if i.Some? {
        return 200, Some(records[i.value]);
      }
      var row := TokenRecord(nextId, token, ip, 0, now + TokenLifetime, now);
      AppendValid(records, nextId, row);
      records := records + [row];
      nextId := nextId + 1;
      status, found := 201, Some(row);
    }

    /** `increment_generation_count`: 400 for a missing or unverifiable
        token, 404 when no live row has the token and the claimed IP, else
        that row's count goes up by one, with no ceiling and no sweep. */
    method IncrementGenerationCount(token: string, now: int, verify: string -> Option<Claims>)
      returns (status: int, newCount: Option<int>)
      requires Valid()
      modifies this
      ensures Valid() && nextId == old(nextId)
      ensures status == 400 <==> token == "" || verify(token).None?
      ensures status == 200 <==>
                status != 400 && verify(token).value.ip.Some?
                && FirstMatch(old(records), token, verify(token).value.ip.value, now).Some?
      ensures status != 200 ==> newCount.None? && records == old(records)
      ensures status == 200 ==>
                var ip := verify(token).value.ip;
                ip.Some? && FirstMatch(old(records), token, ip.value, now).Some?
                && var i := FirstMatch(old(records), token, ip.value, now).value;
                   newCount == Some(old(records)[i].count + 1)
                   && records == Bumped(old(records), old(records)[i].id)
      ensures status in {400, 404, 200}
    {
      if token == "" {
        return 400, None;
      }
      var claims := verify(token);
      if claims.None? {
        return 400, None;
      }
      if claims.value.ip.None? {
        return 404, None;
      }
      var i := FirstMatch(records, token, claims.value.ip.value, now);
      if i.None? {
        return 404, None;
      }
      var row := records[i.value];
      BumpedValid(records, nextId, row.id);
      records := Bumped(records, row.id);
      status, newCount := 200, Some(row.count + 1);
    }

    /** `check_generation_limit`: read-only; `limit_reached` exactly when the
        matching live row's count is at least 5. */
    method CheckGenerationLimit(token: string, now: int, verify: string -> Option<Claims>)
      returns (status: int, count: Option<int>, limitReached: bool)
      ensures status == 400 <==> token == "" || verify(token).None?
      ensures status == 200 <==>
                status != 400 && verify(token).value.ip.Some?
                && FirstMatch(records, token, verify(token).value.ip.value, now).Some?
      ensures status == 200 ==>
                count == Some(records[FirstMatch(records, token, verify(token).value.ip.value, now).value].count)
      ensures status != 200 ==> count.None?
      ensures limitReached <==> count.Some? && count.value >= GenerationLimit
      ensures status in {400, 404, 200}
    {
      if token == "" {
        return 400, None, false;
      }
      var claims := verify(token);
      if claims.None? {
        return 400, None, false;
      }
      if claims.value.ip.None? {
        return 404, None, false;
      }
      var i := FirstMatch(records, token, claims.value.ip.value, now);
      if i.None? {
        return 404, None, false;
      }
      var c := records[i.value].count;
      status, count, limitReached := 200, Some(c), c >= GenerationLimit;
    }

    /** `cleanup_expired_tokens`: the sweep, reporting how many rows went. */
    method CleanupExpiredTokens(now: int) returns (deleted: nat)
      requires Valid()
      modifies this
      ensures Valid() && nextId == old(nextId)
      ensures records == Swept(old(records), now)
      ensures deleted == ExpiredCount(old(records), now)
    {
      deleted := Sweep(now);
    }
  }

  // Properties of the table operations.

  /** The sweep removes exactly the expired rows and keeps the others. */
  lemma {:induction false} SweptKeeps(rs: seq<TokenRecord>, now: int, r: TokenRecord)
    ensures r in Swept(rs, now) <==> r in rs && r.expiry >= now
    decreases |rs|
  {
    if rs != [] {
      var init := rs[..|rs| - 1];
      SweptKeeps(init, now, r);
      assert rs == init + [rs[|rs| - 1]];
    }
  }

  /** The count reported is the number of rows removed. */
  lemma {:induction false} SweptSize(rs: seq<TokenRecord>, now: int)
    ensures |Swept(rs, now)| + ExpiredCount(rs, now) == |rs|
    decreases |rs|
  {
    if rs != [] {
      SweptSize(rs[..|rs| - 1], now);
    }
  }

  /** A row that expires exactly now is neither swept nor found. */
  lemma ExpiringNowIsKeptButNotFound(rs: seq<TokenRecord>, now: int, r: TokenRecord)
    requires r in rs && r.expiry == now
    ensures r in Swept(rs, now)
    ensures !Live(r, now)
    ensures forall i :: 0 <= i < |rs| && rs[i] == r ==> LatestFor(rs, r.ip, now) != Some(i)
    ensures forall i :: 0 <= i < |rs| && rs[i] == r ==> FirstMatch(rs, r.token, r.ip, now) != Some(i)
  {
    SweptKeeps(rs, now, r);
  }

  /** `LatestFor` finds a row exactly when the IP has a live row, and the
      row it finds is at least as new as every live row of the IP. */
  lemma {:induction false} LatestIsNewest(rs: seq<TokenRecord>, ip: string, now: int)
    ensures LatestFor(rs, ip, now).None? <==> forall j :: 0 <= j < |rs| ==> !(rs[j].ip == ip && Live(rs[j], now))
    ensures LatestFor(rs, ip, now).Some? ==>
              forall j :: 0 <= j < |rs| && rs[j].ip == ip && Live(rs[j], now) ==>
                rs[j].createdAt <= rs[LatestFor(rs, ip, now).value].createdAt
    decreases |rs|
  {
    if rs != [] {
      var init := rs[..|rs| - 1];
      LatestIsNewest(init, ip, now);
      forall j | 0 <= j < |init| ensures init[j] == rs[j] { }
    }
  }

  /** Bumping a row's id adds one to that row's count and to no other row
      when ids are distinct. */
  lemma BumpedChangesOne(rs: seq<TokenRecord>, i: nat)
    requires i < |rs| && DistinctIds(rs)
    ensures Bumped(rs, rs[i].id)[i] == rs[i].(count := rs[i].count + 1)
    ensures forall j :: 0 <= j < |rs| && j != i ==> Bumped(rs, rs[i].id)[j] == rs[j]
  {
  }

  /** After the rate limiter stores `n` for a token and IP, the same row is
      found again, now holding `n`. */
  lemma RecountedFoundAgain(rs: seq<TokenRecord>, token: string, ip: string, now: int, n: int)
    requires FirstMatch(rs, token, ip, now).Some?
    ensures FirstMatch(Recounted(rs, token, ip, n), token, ip, now) == FirstMatch(rs, token, ip, now)
    ensures Recounted(rs, token, ip, n)[FirstMatch(rs, token, ip, now).value].count == n
  {
    var rs' := Recounted(rs, token, ip, n);
    var i := FirstMatch(rs, token, ip, now).value;
    forall j | 0 <= j < |rs| ensures Matches(rs'[j], token, ip, now) == Matches(rs[j], token, ip, now) { }
    FirstMatchSame(rs, rs', token, ip, now);
  }

  lemma {:induction false} FirstMatchSame(rs: seq<TokenRecord>, rs': seq<TokenRecord>, token: string, ip: string, now: int)
    requires |rs| == |rs'|
    requires forall j :: 0 <= j < |rs| ==> Matches(rs'[j], token, ip, now) == Matches(rs[j], token, ip, now)
    ensures FirstMatch(rs', token, ip, now) == FirstMatch(rs, token, ip, now)
    decreases |rs|
  {
    if rs != [] {
      var n := |rs| - 1;
      FirstMatchSame(rs[..n], rs'[..n], token, ip, now);
    }
  }

  // Helpers for `Valid`.

  lemma {:induction false} SweptValid(rs: seq<TokenRecord>, nextId: int, now: int)
    requires DistinctIds(rs)
    requires forall i :: 0 <= i < |rs| ==> rs[i].id < nextId && rs[i].count >= 0
    ensures DistinctIds(Swept(rs, now))
    ensures forall i :: 0 <= i < |Swept(rs, now)| ==> Swept(rs, now)[i].id < nextId && Swept(rs, now)[i].count >= 0
    decreases |rs|
  {
    if rs != [] {
      var init := rs[..|rs| - 1];
      var last := rs[|rs| - 1];
      SweptValid(init, nextId, now);
      var s := Swept(init, now);
      forall i | 0 <= i < |s| ensures s[i] in init && s[i].id != last.id {
        SweptKeeps(init, now, s[i]);
        var k :| 0 <= k < |init| && init[k] == s[i];
        assert rs[k] == init[k];
      }
    }
  }

  lemma AppendValid(rs: seq<TokenRecord>, nextId: int, row: TokenRecord)
    requires DistinctIds(rs) && forall i :: 0 <= i < |rs| ==> rs[i].id < nextId && rs[i].count >= 0
    requires row.id == nextId && row.count >= 0
    ensures DistinctIds(rs + [row])
    ensures forall i :: 0 <= i < |rs + [row]| ==> (rs + [row])[i].id < nextId + 1 && (rs + [row])[i].count >= 0
  {
  }

  lemma BumpedValid(rs: seq<TokenRecord>, nextId: int, id: int)
    requires DistinctIds(rs) && forall i :: 0 <= i < |rs| ==> rs[i].id < nextId && rs[i].count >= 0
    ensures DistinctIds(Bumped(rs, id))
    ensures forall i :: 0 <= i < |rs| ==> Bumped(rs, id)[i].id < nextId && Bumped(rs, id)[i].count >= 0
  {
  }
}
