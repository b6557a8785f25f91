/**
 * The table `authkit_oidc_payloads` and the statements `DatabaseAdapter` runs on it. Each function is one SQL
 * statement, so one atomic step. The `payload` column holds the serialised payload; serialisation is taken to be
 * injective, so the column holds the payload itself. Times are epoch milliseconds.
 */
module PayloadTable {
  import opened Wrappers
  import IsoTimestamp
  import TextOrder

  /** A payload member of unknown type: absent, a string, or anything else. */
  datatype Member = Absent | Text(text: string) | Other(code: int)

  datatype Payload = Payload(
    accountId: Member, grantId: Option<string>, uid: Option<string>, userCode: Option<string>,
    exp: Option<real>, transient: bool, consumed: Option<int>, rest: string)

  datatype Row = Row(
    payload: Payload, accountId: Option<string>, grantId: Option<string>, userCode: Option<string>,
    uid: Option<string>, expiresAt: Option<int>)

  /** Primary key `(model_name, id)`. */
  datatype Key = Key(model: string, id: string)

  type Table = map<Key, Row>

  datatype Artifact = Artifact(id: string, payload: Payload)

  /** A read compares twice: in SQL, as text on SQLite, and again on the rows that came back, with a later clock. */
  datatype Clock = Clock(text: bool, sql: int, js: int)

  // Expiry

  predicate SqlLive(row: Row, c: Clock) {
    row.expiresAt.None? || IsoTimestamp.SqlAfter(c.text, row.expiresAt.value, c.sql)
  }

  predicate Unexpired(row: Row, now: int) {
    row.expiresAt.None? || row.expiresAt.value > now
  }

  // Writes

  /** The account a row is labelled with: a non-empty string, else NULL. */
  function LabelOf(p: Payload): Option<string> {
    if p.accountId.Text? && p.accountId.text != "" then Some(p.accountId.text) else None
  }

  function RowFor(p: Payload, expiresAt: Option<int>): Row {
    Row(p, LabelOf(p), p.grantId, p.userCode, p.uid, expiresAt)
  }

  /** `UPDATE` when the row exists, `INSERT` when it does not: the same row either way. */
  function Put(t: Table, key: Key, p: Payload, expiresAt: Option<int>): Table {
    t[key := RowFor(p, expiresAt)]
  }

  /** The `UPDATE payload` of `consume`: the other columns stay, and a row that went away stays away. */
  function SetPayload(t: Table, key: Key, p: Payload): Table {
    if key in t then t[key := t[key].(payload := p)] else t
  }

  function Delete(t: Table, key: Key): Table {
    t - {key}
  }

  function DeleteByGrant(t: Table, grant: string): Table {
    map key | key in t && t[key].grantId != Some(grant) :: t[key]
  }

  predicate Prunes(row: Row, text: bool, at: int) {
    row.expiresAt.Some? && IsoTimestamp.SqlNotAfter(text, row.expiresAt.value, at)
  }

  function Prune(t: Table, text: bool, at: int): Table {
    map key | key in t && !Prunes(t[key], text, at) :: t[key]
  }

  /** `SET account_id` on the rows of one chunk that are still NULL. */
  function Classify(t: Table, model: string, account: string, ids: seq<string>): Table {
    map key | key in t ::
      if key.model == model && key.id in ids && t[key].accountId.None?
      then t[key].(accountId := Some(account))
      else t[key]
  }

  // Reads

  /** The `WHERE` of the three listings, besides the model and the expiry. */
  datatype Where = Everything | OfAccount(account: string) | OfGrants(grants: set<string>)

  predicate Holds(w: Where, row: Row) {
    match w
    case Everything => true
    case OfAccount(a) => row.accountId == Some(a) || row.accountId.None?
    case OfGrants(gs) => row.grantId.Some? && row.grantId.value in gs
  }

  function Selected(t: Table, model: string, w: Where, c: Clock): (ids: set<string>)
    ensures forall id :: id in ids <==>
      Key(model, id) in t && SqlLive(t[Key(model, id)], c) && Holds(w, t[Key(model, id)])
  {
    set key | key in t && key.model == model && SqlLive(t[key], c) && Holds(w, t[key]) :: key.id
  }

  lemma LeastUnique(a: string, b: string, ids: set<string>)
    requires TextOrder.IsLeast(a, ids) && TextOrder.IsLeast(b, ids)
    ensures a == b
  {
    if a != b {
      TextOrder.Transitive(a, b, a);
      TextOrder.Irreflexive(a);
    }
  }

  /** `ORDER BY id ASC`. */
  function OrderBy(ids: set<string>): (xs: seq<string>)
    ensures TextOrder.Ascending(xs)
    ensures forall id :: id in xs <==> id in ids
  {
    if ids == {} then []
    else
      TextOrder.LeastExists(ids);
      assert forall a, b :: TextOrder.IsLeast(a, ids) && TextOrder.IsLeast(b, ids) ==> a == b by {
        forall a, b | TextOrder.IsLeast(a, ids) && TextOrder.IsLeast(b, ids) ensures a == b { LeastUnique(a, b, ids); }
      }
      var m :| TextOrder.IsLeast(m, ids);
      var rest := OrderBy(ids - {m});
      assert forall i :: 0 <= i < |rest| ==> rest[i] in rest;
      [m] + rest
  }

  predicate InTable(t: Table, model: string, ids: seq<string>) {
    forall id :: id in ids ==> Key(model, id) in t
  }

  function Artifacts(t: Table, model: string, ids: seq<string>): (r: seq<Artifact>)
    requires InTable(t, model, ids)
    ensures |r| == |ids|
    ensures forall i :: 0 <= i < |ids| ==> r[i] == Artifact(ids[i], t[Key(model, ids[i])].payload)
  {
    seq(|ids|, i requires 0 <= i < |ids| => Artifact(ids[i], t[Key(model, ids[i])].payload))
  }

  /** The ids a listing returns: those selected that have not expired by the second clock reading. */
  function Visible(t: Table, model: string, w: Where, c: Clock): (ids: set<string>)
    ensures forall id :: id in ids <==> id in Selected(t, model, w, c) && Unexpired(t[Key(model, id)], c.js)
  {
    set id | id in Selected(t, model, w, c) && Unexpired(t[Key(model, id)], c.js)
  }

  /** `list()`. */
  function List(t: Table, model: string, c: Clock): seq<Artifact> {
    Artifacts(t, model, OrderBy(Visible(t, model, Everything, c)))
  }

  predicate Owns(a: Artifact, account: string) {
    a.payload.accountId == Text(account)
  }

  predicate Refers(a: Artifact, grants: set<string>) {
    a.payload.grantId.Some? && a.payload.grantId.value in grants
  }

  /** The test a listing is filtered by, always on the payload. */
  datatype Wanted = OwnedByAccount(account: string) | OfAnyGrant(grants: set<string>)

  predicate Wants(w: Wanted, a: Artifact) {
    match w
    case OwnedByAccount(account) => Owns(a, account)
    case OfAnyGrant(grants) => Refers(a, grants)
  }

  /** `.filter`. */
  function Filter(xs: seq<Artifact>, w: Wanted): seq<Artifact> {
    if xs == [] then []
    else if Wants(w, xs[0]) then [xs[0]] + Filter(xs[1..], w)
    else Filter(xs[1..], w)
  }

  function OwnedBy(xs: seq<Artifact>, account: string): seq<Artifact> {
    Filter(xs, OwnedByAccount(account))
  }

  function Referring(xs: seq<Artifact>, grants: set<string>): seq<Artifact> {
    Filter(xs, OfAnyGrant(grants))
  }

  /** What `listByAccount` reads by the index and filters by the payload. */
  function ListByAccount(t: Table, model: string, account: string, c: Clock): seq<Artifact> {
    OwnedBy(Artifacts(t, model, OrderBy(Visible(t, model, OfAccount(account), c))), account)
  }

  /** One query of `listByGrantIds`: the rows of one chunk of grants, filtered by all the grants wanted. */
  function ListChunk(t: Table, model: string, chunk: seq<string>, wanted: set<string>, c: Clock): seq<Artifact> {
    Referring(Artifacts(t, model, OrderBy(Visible(t, model, OfGrants(set g | g in chunk), c))), wanted)
  }

  function ListChunks(t: Table, model: string, chunks: seq<seq<string>>, wanted: set<string>, c: Clock): seq<Artifact> {
    if chunks == [] then []
    else ListChunk(t, model, chunks[0], wanted, c) + ListChunks(t, model, chunks[1..], wanted, c)
  }

  /** `find(id)`. */
  function Find(t: Table, key: Key, now: int): Option<Payload> {
    if key in t && Unexpired(t[key], now) then Some(t[key].payload) else None
  }

  /** `first()` on a column: some row with the value, or none when there is none. */
  predicate IsFirstByUid(t: Table, model: string, uid: string, first: Option<string>) {
    match first
    case Some(id) => Key(model, id) in t && t[Key(model, id)].uid == Some(uid)
    case None => forall key :: key in t && key.model == model ==> t[key].uid != Some(uid)
  }

  predicate IsFirstByUserCode(t: Table, model: string, code: string, first: Option<string>) {
    match first
    case Some(id) => Key(model, id) in t && t[Key(model, id)].userCode == Some(code)
    case None => forall key :: key in t && key.model == model ==> t[key].userCode != Some(code)
  }

  function FoundFirst(t: Table, model: string, first: Option<string>, now: int): Option<Payload> {
    if first.Some? then Find(t, Key(model, first.value), now) else None
  }

  // Renewable sessions

  const MAX_SAFE_INTEGER := 9_007_199_254_740_991

  /** A session a renewal may extend: remembered, and its own `exp`, in seconds, still ahead at `now`. */
  predicate Remembered(p: Payload, now: int) {
    !p.transient && p.exp.Some? && p.exp.value > now as real / 1000.0
  }
}
