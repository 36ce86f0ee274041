/**
 * Committing a credential refresh. Tokens are fetched over the network without holding the lock; the
 * commit then merges the result into the credential file, under the lock shared with all other writers,
 * unless the identity, grant or routing of the credential changed in the meantime.
 */
module RefreshCommit {
  import opened Options
  import opened Json

  /** Keys whose change invalidates the network result */
  const IDENTITY_KEYS: seq<string> := [
    "type", "provider", "identity_slug", "email", "account_id", "refresh_token", "dca_token", "access_token",
    "api_key", "client_id", "token_url", "base_url", "upstream_override", "auth_kind", "adapter", "private_key",
    "private_key_id", "client_email", "service_account", "token_uri", "auth_mode", "client_secret", "region"]

  /** Keys that a refresh may write */
  const WRITABLE_KEYS: seq<string> := [
    "access_token", "api_key", "refresh_token", "id_token", "expired", "last_refresh", "timestamp", "client_id",
    "models", "dca_token", "token_type", "expires_in", "dca_expires_at", "dca_expired", "auth_kind", "base_url",
    "email", "name", "subs_tier_name", "subs_tier_id", "is_subs_active", "has_payment_method", "require_payment",
    "can_subscribe"]

  // ---------- The merge ----------

  predicate SameOn(keys: seq<string>, a: Json, b: Json) {
    forall k :: k in keys ==> Get(a, k) == Get(b, k)
  }

  /** The refresh changed the value of `k`, or added or removed it. */
  predicate Changes(expected: Json, candidate: Json, k: string) {
    Get(candidate, k) != Get(expected, k)
  }

  /** `current` with the refresh's changes to `keys` applied, one key after the other */
  function Overlay(current: Fields, expected: Json, candidate: Json, keys: seq<string>): Fields {
    if keys == [] then current
    else
      var k := keys[|keys| - 1];
      var rest := Overlay(current, expected, candidate, keys[..|keys| - 1]);
      if Changes(expected, candidate, k) then SetField(rest, k, Get(candidate, k)) else rest
  }

  /** The content of the file after a commit, or None when the commit reports a conflict */
  function Committed(file: Option<Json>, expected: Option<Json>, candidate: Json): Option<Json> {
    match (expected, file)
    case (None, None) => Some(candidate)
    case (Some(e), Some(current)) =>
      if SameOn(IDENTITY_KEYS, current, e) && current.Object?
      then Some(Object(Overlay(current.fields, e, candidate, WRITABLE_KEYS)))
      else None
    case _ => None
  }

  class CredentialFile {
    var content: Option<Json>

    constructor (initial: Option<Json>)
      ensures content == initial
    {
      content := initial;
    }

    /** `commit_refresh`, from reading the file to replacing it, under the lock */
    method CommitRefresh(expected: Option<Json>, candidate: Json) returns (merged: Option<Json>)
      modifies this
      ensures merged == Committed(old(content), expected, candidate)
      ensures content == if merged.Some? then merged else old(content)
    {
      hide Overlay;
      match (expected, content) {
        case (None, None) =>
          merged := Some(candidate);
        case (Some(e), Some(current)) =>
          var same := CompareKeys(IDENTITY_KEYS, current, e);
          if !same {
            return None;
          }
          if !current.Object? {
            return None;
          }
          var fields := WriteKeys(current.fields, e, candidate, WRITABLE_KEYS);
          merged := Some(Object(fields));
        case _ =>
          return None;
      }
      content := merged;
    }
  }

  method CompareKeys(keys: seq<string>, a: Json, b: Json) returns (same: bool)
    ensures same == SameOn(keys, a, b)
  {
    for i := 0 to |keys|
      invariant forall j :: 0 <= j < i ==> Get(a, keys[j]) == Get(b, keys[j])
    {
      if Get(a, keys[i]) != Get(b, keys[i]) {
        return false;
      }
    }
    return true;
  }

  method WriteKeys(current: Fields, expected: Json, candidate: Json, keys: seq<string>) returns (fields: Fields)
    ensures fields == Overlay(current, expected, candidate, keys)
  {
    fields := current;
    for i := 0 to |keys|
      invariant fields == Overlay(current, expected, candidate, keys[..i])
    {
      assert keys[..i + 1][..i] == keys[..i];
      if Get(candidate, keys[i]) != Get(expected, keys[i]) {
        match Get(candidate, keys[i]) {
          case Some(v) => fields := fields[keys[i] := v];
          case None => fields := fields - {keys[i]};
        }
      }
    }
    assert keys[..|keys|] == keys;
  }

  // ---------- What the merge means ----------

  /** A key takes the refresh's value where the refresh may and does change it, and the file's value elsewhere. */
  lemma {:induction false} OverlayAt(current: Fields, expected: Json, candidate: Json, keys: seq<string>, k: string)
    ensures FieldOf(Overlay(current, expected, candidate, keys), k) ==
            if k in keys && Changes(expected, candidate, k) then Get(candidate, k) else FieldOf(current, k)
  {
    if keys != [] {
      OverlayAt(current, expected, candidate, keys[..|keys| - 1], k);
      assert k in keys <==> k in keys[..|keys| - 1] || k == keys[|keys| - 1];
    }
  }

  /**
   * A commit over an existing file succeeds exactly when the file is an object that still agrees with the
   * snapshot on every identity, grant and routing key. It then is the three-way merge: the refresh's value
   * on writable keys that the refresh changed, the file's own value, however it was edited, on all others.
   */
  lemma CommitIsThreeWayMerge(current: Json, expected: Json, candidate: Json, k: string)
    ensures var r := Committed(Some(current), Some(expected), candidate);
            && (r.Some? <==> current.Object? && SameOn(IDENTITY_KEYS, current, expected))
            && (r.Some? ==>
                  && r.value.Object?
                  && Get(r.value, k) ==
                     if k in WRITABLE_KEYS && Changes(expected, candidate, k) then Get(candidate, k) else Get(current, k))
  {
    hide Overlay, WRITABLE_KEYS, IDENTITY_KEYS;
    if current.Object? {
      OverlayAt(current.fields, expected, candidate, WRITABLE_KEYS, k);
    }
  }

  /** Without a concurrent edit the file ends up as the candidate on the writable keys, and as it was elsewhere. */
  lemma CommitWithoutEdits(expected: Json, candidate: Json, k: string)
    requires expected.Object?
    ensures var r := Committed(Some(expected), Some(expected), candidate);
            r.Some? && Get(r.value, k) == if k in WRITABLE_KEYS then Get(candidate, k) else Get(expected, k)
  {
    hide WRITABLE_KEYS, IDENTITY_KEYS;
    CommitIsThreeWayMerge(expected, expected, candidate, k);
  }

  /** An edit that a management writer makes: new values and removals */
  type Edit = map<string, Option<Json>>

  function Edited(fields: Fields, edit: Edit): Fields {
    map k | k in fields.Keys + edit.Keys && (if k in edit then edit[k].Some? else k in fields) ::
      if k in edit then edit[k].value else fields[k]
  }

  lemma EditedAt(fields: Fields, edit: Edit, k: string)
    ensures FieldOf(Edited(fields, edit), k) == if k in edit then edit[k] else FieldOf(fields, k)
  {
  }

  lemma SameFields(a: Fields, b: Fields)
    requires forall k :: FieldOf(a, k) == FieldOf(b, k)
    ensures a == b
  {
    forall k ensures k in a <==> k in b {
      assert FieldOf(a, k) == FieldOf(b, k);
    }
    forall k | k in a ensures a[k] == b[k] {
      assert FieldOf(a, k) == FieldOf(b, k);
    }
  }

  /**
   * Edits commute with commits: an edit that touches neither identity keys nor keys the refresh changes
   * gives the same file whether it comes before the commit or after it.
   */
  lemma EditsCommuteWithCommit(current: Fields, expected: Json, candidate: Json, edit: Edit)
    requires forall k :: k in edit ==> k !in IDENTITY_KEYS && !(k in WRITABLE_KEYS && Changes(expected, candidate, k))
    ensures var before := Committed(Some(Object(current)), Some(expected), candidate);
            var after := Committed(Some(Object(Edited(current, edit))), Some(expected), candidate);
            && (before.Some? <==> after.Some?)
            && (before.Some? ==> before.value.Object? && after == Some(Object(Edited(before.value.fields, edit))))
  {
    hide Overlay, WRITABLE_KEYS, IDENTITY_KEYS, Edited;
    var edited := Edited(current, edit);
    forall k | k in IDENTITY_KEYS ensures Get(Object(edited), k) == Get(Object(current), k) {
      EditedAt(current, edit, k);
    }
    assert SameOn(IDENTITY_KEYS, Object(edited), expected) <==> SameOn(IDENTITY_KEYS, Object(current), expected);
    var one := Overlay(current, expected, candidate, WRITABLE_KEYS);
    var two := Overlay(edited, expected, candidate, WRITABLE_KEYS);
    forall k ensures FieldOf(two, k) == FieldOf(Edited(one, edit), k) {
      OverlayAt(current, expected, candidate, WRITABLE_KEYS, k);
      OverlayAt(edited, expected, candidate, WRITABLE_KEYS, k);
      EditedAt(current, edit, k);
      EditedAt(one, edit, k);
    }
    SameFields(two, Edited(one, edit));
  }

  // ---------- The refresh around it ----------

  datatype Kind = Generic | Vertex | OtherKind

  datatype Tokens = Tokens(access: string, refresh: Option<string>, idToken: Option<string>)

  /** Clock readings, already rendered as the file wants them */
  datatype Stamp = Stamp(expired: string, lastRefresh: string, millis: int)

  function AccessField(fields: Fields): string {
    if FieldOf(fields, "type") == Some(Text("generic")) then "api_key" else "access_token"
  }

  /** `apply_refresh_to_value`, and for Vertex accounts the removal of the aliased key */
  function Candidate(expected: Fields, kind: Kind, tokens: Tokens, stamp: Stamp): Fields {
    var f1 := expected[AccessField(expected) := Text(tokens.access)];
    var f2 := if tokens.refresh.Some? then f1["refresh_token" := Text(tokens.refresh.value)] else f1;
    var f3 := if tokens.idToken.Some? then f2["id_token" := Text(tokens.idToken.value)] else f2;
    var f4 := f3["expired" := Text(stamp.expired)]["last_refresh" := Text(stamp.lastRefresh)];
    var f5 := if "timestamp" !in f4 then f4
              else f4["timestamp" := if f4["timestamp"].Number? then Number(stamp.millis) else Text(stamp.lastRefresh)];
    if kind.Vertex? then f5 - {"api_key"} else f5
  }

  function TextOrEmpty(fields: Fields, key: string): string {
    var v := GetText(Object(fields), key);
    if v.Some? then v.value else ""
  }

  function ExpectedAccess(kind: Kind, fields: Fields): string {
    match kind
    case Generic => TextOrEmpty(fields, "api_key")
    case Vertex => if "access_token" in fields then TextOrEmpty(fields, "access_token") else TextOrEmpty(fields, "api_key")
    case OtherKind => TextOrEmpty(fields, "access_token")
  }

  /** The check before the network request: the loaded account still carries the file's tokens. */
  predicate GrantUnchanged(kind: Kind, fields: Fields, memoryRefresh: string, memoryAccess: string) {
    (kind.Vertex? || TextOrEmpty(fields, "refresh_token") == memoryRefresh) && ExpectedAccess(kind, fields) == memoryAccess
  }

  // ---------- Interleavings ----------

  /** What a refresh exchanges: the stored tokens */
  datatype Grant = Grant(refresh: Option<Json>, access: Option<Json>, apiKey: Option<Json>)

  function GrantOf(v: Json): Grant {
    Grant(Get(v, "refresh_token"), Get(v, "access_token"), Get(v, "api_key"))
  }

  predicate Mentions(g: Grant, token: string) {
    g.refresh == Some(Text(token)) || g.access == Some(Text(token)) || g.apiKey == Some(Text(token))
  }

  /** A refresh in flight: its snapshot and the refresh token it sends */
  datatype Flight = Flight(kind: Kind, expected: Fields, sent: string)

  datatype World = World(
    file: Option<Json>,
    flights: map<nat, Flight>,
    consumed: seq<Grant>)       // the grants that successful commits replaced, in order

  datatype Event =
    | Begin(id: nat, kind: Kind, memoryRefresh: string, memoryAccess: string)
    | Finish(id: nat, tokens: Tokens, stamp: Stamp)
    | Abandon(id: nat)
    | Replace(content: Option<Json>)   // any other writer that holds the lock, including deletion

  /**
   * A refresh starts from a file whose tokens are the loaded ones; a file of type generic is never loaded as
   * a Vertex account. Token endpoints issue access tokens that were never stored here before, and other
   * writers do not put back tokens that a refresh has replaced.
   */
  predicate Enabled(w: World, e: Event) {
    match e
    case Begin(id, kind, memoryRefresh, memoryAccess) =>
      && id !in w.flights && w.file.Some? && w.file.value.Object?
      && (kind.Vertex? ==> AccessField(w.file.value.fields) == "access_token")
      && GrantUnchanged(kind, w.file.value.fields, memoryRefresh, memoryAccess)
    case Finish(id, tokens, _) =>
      && id in w.flights
      && !Mentions(GrantOf(Object(w.flights[id].expected)), tokens.access)
      && forall g :: g in w.consumed ==> !Mentions(g, tokens.access)
    case Abandon(id) => id in w.flights
    case Replace(content) => content.Some? ==> GrantOf(content.value) !in w.consumed
  }

  function CommitOf(w: World, id: nat, tokens: Tokens, stamp: Stamp): Option<Json>
    requires id in w.flights
  {
    var f := w.flights[id];
    Committed(w.file, Some(Object(f.expected)), Object(Candidate(f.expected, f.kind, tokens, stamp)))
  }

  function Next(w: World, e: Event): World
    requires Enabled(w, e)
  {
    match e
    case Begin(id, kind, memoryRefresh, _) =>
      w.(flights := w.flights[id := Flight(kind, w.file.value.fields, memoryRefresh)])
    case Finish(id, tokens, stamp) =>
      var r := CommitOf(w, id, tokens, stamp);
      if r.Some? then World(r, w.flights - {id}, w.consumed + [GrantOf(Object(w.flights[id].expected))])
      else w.(flights := w.flights - {id})
    case Abandon(id) => w.(flights := w.flights - {id})
    case Replace(content) => w.(file := content)
  }

  ghost predicate IsRun(w: World, es: seq<Event>)
    decreases |es|
  {
    es == [] || (Enabled(w, es[0]) && IsRun(Next(w, es[0]), es[1..]))
  }

  ghost function Last(w: World, es: seq<Event>): World
    requires IsRun(w, es)
    decreases |es|
  {
    if es == [] then w else Last(Next(w, es[0]), es[1..])
  }

  ghost predicate AllDistinct(gs: seq<Grant>) {
    forall i, j :: 0 <= i < j < |gs| ==> gs[i] != gs[j]
  }

  ghost predicate Inv(w: World) {
    && AllDistinct(w.consumed)
    && (w.file.Some? ==> GrantOf(w.file.value) !in w.consumed)
    && (forall id :: id in w.flights ==> SendsItsSnapshot(w.flights[id]))
  }

  /** The refresh token on the wire is the one in the snapshot; Vertex accounts send none. */
  predicate SendsItsSnapshot(f: Flight) {
    if f.kind.Vertex? then AccessField(f.expected) == "access_token"
    else f.sent == TextOrEmpty(f.expected, "refresh_token")
  }

  lemma GrantKeysListed()
    ensures "refresh_token" in IDENTITY_KEYS && "access_token" in IDENTITY_KEYS && "api_key" in IDENTITY_KEYS
    ensures "refresh_token" in WRITABLE_KEYS && "access_token" in WRITABLE_KEYS && "api_key" in WRITABLE_KEYS
  {
    assert IDENTITY_KEYS[5] == "refresh_token" && IDENTITY_KEYS[7] == "access_token" && IDENTITY_KEYS[8] == "api_key";
    assert WRITABLE_KEYS[2] == "refresh_token" && WRITABLE_KEYS[0] == "access_token" && WRITABLE_KEYS[1] == "api_key";
  }

  /** The candidate carries the new access token among its grant keys, and a Vertex candidate has no aliased key. */
  lemma CandidateMentionsToken(expected: Fields, kind: Kind, tokens: Tokens, stamp: Stamp)
    requires kind.Vertex? ==> AccessField(expected) == "access_token"
    ensures Mentions(GrantOf(Object(Candidate(expected, kind, tokens, stamp))), tokens.access)
  {
  }

  /**
   * What a refresh writes: the access token under the key of its type, a rotated refresh token and a new identity
   * token if issued, the two times, and a timestamp of the kind that was there. A Vertex account loses its aliased
   * key; every other key is the snapshot's.
   */
  lemma CandidateWrites(expected: Fields, kind: Kind, tokens: Tokens, stamp: Stamp, key: string)
    ensures var c := FieldOf(Candidate(expected, kind, tokens, stamp), key);
            var was := FieldOf(expected, key);
            var generic := FieldOf(expected, "type") == Some(Text("generic"));
            match key
            case "refresh_token" => c == if tokens.refresh.Some? then Some(Text(tokens.refresh.value)) else was
            case "access_token" => c == if generic then was else Some(Text(tokens.access))
            case "api_key" => c == if kind.Vertex? then None else if generic then Some(Text(tokens.access)) else was
            case "id_token" => c == if tokens.idToken.Some? then Some(Text(tokens.idToken.value)) else was
            case "expired" => c == Some(Text(stamp.expired))
            case "last_refresh" => c == Some(Text(stamp.lastRefresh))
            case "timestamp" =>
              c == if was.None? then None else if was.value.Number? then Some(Number(stamp.millis)) else Some(Text(stamp.lastRefresh))
            case _ => c == was
  {
  }

  /** The kind of an account as its file says */
  predicate KindFits(kind: Kind, fields: Fields) {
    kind.Generic? <==> FieldOf(fields, "type") == Some(Text("generic"))
  }

  /**
   * When the next refresh may start from a refreshed file: exactly if the loaded account has its new access token
   * and, except for Vertex accounts, its refresh token.
   */
  lemma RefreshedFileMayRefresh(expected: Fields, kind: Kind, tokens: Tokens, stamp: Stamp, refresh: string, access: string)
    requires KindFits(kind, expected)
    ensures var c := Candidate(expected, kind, tokens, stamp);
            GrantUnchanged(kind, c, refresh, access) <==>
            access == tokens.access && (kind.Vertex? || TextOrEmpty(c, "refresh_token") == refresh)
  {
    hide Candidate;
    CandidateWrites(expected, kind, tokens, stamp, "access_token");
    CandidateWrites(expected, kind, tokens, stamp, "api_key");
  }

  /** A successful commit consumes the grant of its own snapshot and leaves a grant that mentions the new token. */
  lemma CommitReplacesGrant(file: Json, expected: Fields, kind: Kind, tokens: Tokens, stamp: Stamp)
    requires kind.Vertex? ==> AccessField(expected) == "access_token"
    requires !Mentions(GrantOf(Object(expected)), tokens.access)
    ensures var r := Committed(Some(file), Some(Object(expected)), Object(Candidate(expected, kind, tokens, stamp)));
            r.Some? ==> GrantOf(file) == GrantOf(Object(expected)) && Mentions(GrantOf(r.value), tokens.access)
  {
    hide IDENTITY_KEYS, WRITABLE_KEYS, Candidate, Committed;
    GrantKeysListed();
    CandidateMentionsToken(expected, kind, tokens, stamp);
    var c := Object(Candidate(expected, kind, tokens, stamp));
    CommitIsThreeWayMerge(file, Object(expected), c, "refresh_token");
    CommitIsThreeWayMerge(file, Object(expected), c, "access_token");
    CommitIsThreeWayMerge(file, Object(expected), c, "api_key");
  }

  lemma FinishKeepsInv(w: World, id: nat, tokens: Tokens, stamp: Stamp)
    requires Inv(w) && Enabled(w, Finish(id, tokens, stamp))
    ensures Inv(Next(w, Finish(id, tokens, stamp)))
  {
    hide Candidate, Committed, Mentions;
    var f := w.flights[id];
    var r := CommitOf(w, id, tokens, stamp);
    if r.Some? {
      assert w.file.Some? by { CommitNeedsFile(w.file, f.expected, f.kind, tokens, stamp); }
      CommitReplacesGrant(w.file.value, f.expected, f.kind, tokens, stamp);
      assert GrantOf(r.value) !in w.consumed;
    }
  }

  lemma CommitNeedsFile(file: Option<Json>, expected: Fields, kind: Kind, tokens: Tokens, stamp: Stamp)
    requires Committed(file, Some(Object(expected)), Object(Candidate(expected, kind, tokens, stamp))).Some?
    ensures file.Some?
  {
    hide Candidate;
  }

  lemma StepKeepsInv(w: World, e: Event)
    requires Inv(w) && Enabled(w, e)
    ensures Inv(Next(w, e))
  {
    hide CommitOf;
    if e.Finish? {
      FinishKeepsInv(w, e.id, e.tokens, e.stamp);
    }
  }

  lemma {:induction false} RunKeepsInv(w: World, es: seq<Event>)
    requires Inv(w) && IsRun(w, es)
    ensures Inv(Last(w, es))
    decreases |es|
  {
    hide Inv, Next, Enabled;
    if es != [] {
      StepKeepsInv(w, es[0]);
      RunKeepsInv(Next(w, es[0]), es[1..]);
    }
  }

  /**
   * Over every interleaving of refreshes with each other and with other writers, no stored grant is
   * consumed by two successful commits, and the file never again holds a consumed grant.
   */
  lemma GrantsAreConsumedOnce(file: Option<Json>, es: seq<Event>)
    requires IsRun(World(file, map[], []), es)
    ensures var w := Last(World(file, map[], []), es);
            && AllDistinct(w.consumed)
            && (w.file.Some? ==> GrantOf(w.file.value) !in w.consumed)
            && (forall id :: id in w.flights ==> SendsItsSnapshot(w.flights[id]))
  {
    RunKeepsInv(World(file, map[], []), es);
  }

  /** Once a refresh is committed, every other refresh that started from the same tokens conflicts. */
  lemma CommitInvalidatesSnapshot(file: Json, a: Fields, b: Fields, kind: Kind, tokens: Tokens, stamp: Stamp, other: Json)
    requires kind.Vertex? ==> AccessField(a) == "access_token"
    requires !Mentions(GrantOf(Object(a)), tokens.access)
    requires GrantOf(Object(b)) == GrantOf(Object(a))
    ensures var r := Committed(Some(file), Some(Object(a)), Object(Candidate(a, kind, tokens, stamp)));
            r.Some? ==> Committed(r, Some(Object(b)), other).None?
  {
    hide IDENTITY_KEYS, WRITABLE_KEYS, Candidate;
    CommitReplacesGrant(file, a, kind, tokens, stamp);
    GrantKeysListed();
  }
}
