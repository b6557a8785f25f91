/**
 * The three tables of personal-agent delegation and the statements run on them. Each function is one
 * SQL statement of `delegation_store.ts`, so one atomic step of whichever call runs it. Device codes
 * and refresh tokens are stored by hash; the hash is injective, so the secret itself is the key here.
 * Times are epoch milliseconds.
 */
module DelegationRows {
  import opened Wrappers
  import TextOrder

  datatype DeviceStatus = Pending | Approved | Denied | Consumed

  datatype Device = Device(
    userCode: string, clientId: string, agentSub: string, requestedScope: string, status: DeviceStatus,
    accountId: Option<string>, grantId: Option<string>, intervalSeconds: int, lastPolledAt: Option<int>, expiresAt: int)

  datatype Grant = Grant(
    accountId: string, clientId: string, agentSub: string, scope: string,
    expiresAt: int, revokedAt: Option<int>, createdAt: int, updatedAt: int)

  datatype RefreshToken = RefreshToken(grantId: string, expiresAt: int, usedAt: Option<int>)

  datatype Rows = Rows(
    devices: map<string, Device>, grants: map<string, Grant>, refreshTokens: map<string, RefreshToken>)

  /** Whom a grant is for: one account, one agent, one user of that agent. */
  datatype Party = Party(accountId: string, clientId: string, agentSub: string)

  function PartyOf(g: Grant): Party {
    Party(g.accountId, g.clientId, g.agentSub)
  }

  const POPPY_PREFIX := "pgrant_"

  /** The grants table is shared with Poppy, whose ids start with `pgrant_`. */
  predicate IsPactGrant(id: string) {
    !(POPPY_PREFIX <= id)
  }

  // Device codes

  function InsertDevice(rows: Rows, code: string, device: Device): Rows {
    rows.(devices := rows.devices[code := device])
  }

  function DeleteDevicesExpiredBefore(rows: Rows, before: int): Rows {
    rows.(devices := map code | code in rows.devices && rows.devices[code].expiresAt >= before :: rows.devices[code])
  }

  function MarkPolled(rows: Rows, code: string, at: int): Rows {
    if code in rows.devices
    then rows.(devices := rows.devices[code := rows.devices[code].(lastPolledAt := Some(at))])
    else rows
  }

  /** The CAS on `status`: it applies only when a row with that key still has the status `from`. */
  predicate CanTransition(rows: Rows, code: string, from: DeviceStatus) {
    code in rows.devices && rows.devices[code].status == from
  }

  function TransitionDevice(rows: Rows, code: string, from: DeviceStatus, to: DeviceStatus,
      account: Option<string>): Rows {
    if CanTransition(rows, code, from) then
      var device := rows.devices[code].(status := to);
      rows.(devices := rows.devices[code := if account.Some? then device.(accountId := account) else device])
    else rows
  }

  function SetDeviceGrant(rows: Rows, code: string, grantId: string): Rows {
    if code in rows.devices
    then rows.(devices := rows.devices[code := rows.devices[code].(grantId := Some(grantId))])
    else rows
  }

  /** `first()` by user code: some row with it, or none when there is none. */
  predicate FindsUserCode(rows: Rows, userCode: string, found: Option<string>) {
    match found
    case Some(code) => code in rows.devices && rows.devices[code].userCode == userCode
    case None => forall code :: code in rows.devices ==> rows.devices[code].userCode != userCode
  }

  // Grants

  predicate Unrevoked(rows: Rows, id: string) {
    id in rows.grants && rows.grants[id].revokedAt.None?
  }

  function InsertGrant(rows: Rows, id: string, grant: Grant): Rows {
    rows.(grants := rows.grants[id := grant])
  }

  function UpdateGrant(rows: Rows, id: string, scope: string, expiresAt: int, at: int): Rows {
    if Unrevoked(rows, id)
    then rows.(grants := rows.grants[id := rows.grants[id].(scope := scope, expiresAt := expiresAt, updatedAt := at)])
    else rows
  }

  function RevokeGrantById(rows: Rows, id: string, at: int): Rows {
    if Unrevoked(rows, id)
    then rows.(grants := rows.grants[id := rows.grants[id].(revokedAt := Some(at), updatedAt := at)])
    else rows
  }

  function RevokeGrant(rows: Rows, account: string, id: string, at: int): Rows {
    if id in rows.grants && rows.grants[id].accountId == account then RevokeGrantById(rows, id, at) else rows
  }

  function RevokeAllGrants(rows: Rows, account: string, at: int): Rows {
    rows.(grants := map id | id in rows.grants ::
      if rows.grants[id].accountId == account && rows.grants[id].revokedAt.None?
      then rows.grants[id].(revokedAt := Some(at), updatedAt := at)
      else rows.grants[id])
  }

  /** The unrevoked, unexpired PACT grants of a party: what `approve` and `#converge` keep of `findGrantsFor`. */
  predicate IsLive(rows: Rows, who: Party, now: int, id: string) {
    && Unrevoked(rows, id)
    && PartyOf(rows.grants[id]) == who
    && IsPactGrant(id)
    && rows.grants[id].expiresAt > now
  }

  function LiveIds(rows: Rows, who: Party, now: int): set<string> {
    set id | id in rows.grants && IsLive(rows, who, now, id)
  }

  /** Oldest first, ties by id: the order in which a survivor is elected. */
  predicate Older(rows: Rows, a: string, b: string) {
    && a in rows.grants && b in rows.grants
    && (|| rows.grants[a].createdAt < rows.grants[b].createdAt
        || (rows.grants[a].createdAt == rows.grants[b].createdAt && TextOrder.Less(a, b)))
  }

  /** `ids` is the live set in that order. */
  ghost predicate IsSnapshot(rows: Rows, who: Party, now: int, ids: seq<string>) {
    && (forall id :: id in ids <==> id in LiveIds(rows, who, now))
    && (forall i, j :: 0 <= i < j < |ids| ==> Older(rows, ids[i], ids[j]))
  }

  /** `approve` prefers the most recently updated live grant; `None` when there is none. */
  ghost predicate IsMostRecent(rows: Rows, who: Party, now: int, choice: Option<string>) {
    match choice
    case None => LiveIds(rows, who, now) == {}
    case Some(id) =>
      && id in LiveIds(rows, who, now)
      && forall other :: other in LiveIds(rows, who, now) ==> rows.grants[other].updatedAt <= rows.grants[id].updatedAt
  }

  // Refresh tokens

  function InsertRefreshToken(rows: Rows, token: string, row: RefreshToken): Rows {
    rows.(refreshTokens := rows.refreshTokens[token := row])
  }

  /** The CAS on `used_at`. */
  predicate CanUse(rows: Rows, token: string) {
    token in rows.refreshTokens && rows.refreshTokens[token].usedAt.None?
  }

  function UseRefreshToken(rows: Rows, token: string, at: int): Rows {
    if CanUse(rows, token)
    then rows.(refreshTokens := rows.refreshTokens[token := rows.refreshTokens[token].(usedAt := Some(at))])
    else rows
  }
}
