/**
 The lifecycle document at JSON value level (RFC 8259 values; text layout is not modelled),
 its decoder with the schema-v2 migration, and the state digest.
 */
module LifecycleCodec {
  import opened Wrappers
  import opened Text
  import opened Lifecycle

  datatype Json =
    | JNull
    | JBool(flag: bool)
    | JInt(whole: int)
    | JFloat(float: real)
    | JString(text: string)
    | JArray(items: seq<Json>)
    | JObject(fields: map<string, Json>)

  // The decoder has a single error, LifecycleCorruptionError.
  datatype Corrupt = Corrupt
  type Decoded<+T> = Result<T, Corrupt>

  /* ---------- names ---------- */

  function DraftStateName(s: DraftState): string {
    match s
    case Draft => "draft"
    case StaticValidated => "static_validated"
    case SandboxTested => "sandbox_tested"
    case ModelReviewed => "model_reviewed"
    case AwaitingApproval => "awaiting_approval"
    case Approved => "approved"
    case Rejected => "rejected"
    case ReviewFailed => "review_failed"
    case ValidationFailed => "validation_failed"
    case TestFailed => "test_failed"
  }

  function ParseDraftState(j: Json): Decoded<DraftState> {
    match j
    case JString("draft") => Ok(DraftState.Draft)
    case JString("static_validated") => Ok(DraftState.StaticValidated)
    case JString("sandbox_tested") => Ok(DraftState.SandboxTested)
    case JString("model_reviewed") => Ok(DraftState.ModelReviewed)
    case JString("awaiting_approval") => Ok(DraftState.AwaitingApproval)
    case JString("approved") => Ok(DraftState.Approved)
    case JString("rejected") => Ok(DraftState.Rejected)
    case JString("review_failed") => Ok(DraftState.ReviewFailed)
    case JString("validation_failed") => Ok(DraftState.ValidationFailed)
    case JString("test_failed") => Ok(DraftState.TestFailed)
    case _ => Err(Corrupt)
  }

  function VersionStateName(s: VersionState): string {
    match s
    case Approved => "approved"
    case Activated => "activated"
    case Deprecated => "deprecated"
    case Archived => "archived"
  }

  function ParseVersionState(j: Json): Decoded<VersionState> {
    match j
    case JString("approved") => Ok(VersionState.Approved)
    case JString("activated") => Ok(VersionState.Activated)
    case JString("deprecated") => Ok(VersionState.Deprecated)
    case JString("archived") => Ok(VersionState.Archived)
    case _ => Err(Corrupt)
  }

  lemma DraftStateNames(s: DraftState)
    ensures ParseDraftState(JString(DraftStateName(s))) == Ok(s)
  {
    match s {
      case Draft =>
      case _ =>
    }
  }

  /* ---------- scalars ---------- */

  function ParseString(j: Json): Decoded<string> {
    if j.JString? then Ok(j.text) else Err(Corrupt)
  }

  function StringJson(s: string): Json {
    JString(s)
  }

  // Timestamps: a JSON number, never a boolean; normalised to float.
  function ParseTime(j: Json): Decoded<real> {
    if j.JFloat? && j.float >= 0.0 then Ok(j.float)
    else if j.JInt? && j.whole >= 0 then Ok(j.whole as real)
    else Err(Corrupt)
  }

  function ParseOptTime(j: Json): Decoded<OptTime> {
    if j.JNull? then Ok(None) else var t :- ParseTime(j); Ok(Some(t))
  }

  function ParseOptString(j: Json): Decoded<Option<string>> {
    if j.JNull? then Ok(None) else var s :- ParseString(j); Ok(Some(s))
  }

  function OptTimeJson(t: OptTime): Json {
    if t.Some? then JFloat(t.value) else JNull
  }

  function OptStringJson(s: Option<string>): Json {
    if s.Some? then JString(s.value) else JNull
  }

  function Fields(j: Json, expected: set<string>): Decoded<map<string, Json>> {
    if j.JObject? && j.fields.Keys == expected then Ok(j.fields) else Err(Corrupt)
  }

  /* ---------- evidence ---------- */

  function EvidenceJson(e: Evidence): Json {
    JObject(map[
      "state" := JString(DraftStateName(e.state)),
      "draft_digest" := JString(e.draftDigest),
      "producer" := JString(e.producer),
      "outcome" := JString(e.outcome),
      "summary" := JString(e.summary),
      "recorded_at" := JFloat(e.recordedAt),
      "risks" := JArray(Texts(e.risks))])
  }

  function Texts(s: seq<string>): seq<Json> {
    if s == [] then [] else [JString(s[0])] + Texts(s[1..])
  }

  function ParseStrings(items: seq<Json>): Decoded<seq<string>> {
    if items == [] then Ok([])
    else
      var head :- ParseString(items[0]);
      var tail :- ParseStrings(items[1..]);
      Ok([head] + tail)
  }

  function DecodeEvidence(j: Json): Decoded<Evidence> {
    var f :- Fields(j, {"state", "draft_digest", "producer", "outcome", "summary", "recorded_at", "risks"});
    var state :- ParseDraftState(f["state"]);
    :- Need(f["risks"].JArray?, Corrupt);
    var digest :- ParseString(f["draft_digest"]);
    var producer :- ParseString(f["producer"]);
    var outcome :- ParseString(f["outcome"]);
    var summary :- ParseString(f["summary"]);
    var at :- ParseTime(f["recorded_at"]);
    var risks :- ParseStrings(f["risks"].items);
    var e := Evidence(state, digest, producer, outcome, summary, at, risks);
    :- Need(e.Ok(), Corrupt);
    Ok(e)
  }

  lemma {:induction false} TextsRoundTrip(s: seq<string>)
    ensures ParseStrings(Texts(s)) == Ok(s)
  {
    if s != [] {
      TextsRoundTrip(s[1..]);
      assert Texts(s)[1..] == Texts(s[1..]);
      assert s == [s[0]] + s[1..];
    }
  }

  lemma EvidenceRoundTrip(e: Evidence)
    requires e.Ok()
    ensures DecodeEvidence(EvidenceJson(e)) == Ok(e)
  {
    TextsRoundTrip(e.risks);
    DraftStateNames(e.state);
    var f := EvidenceJson(e).fields;
    assert f.Keys == {"state", "draft_digest", "producer", "outcome", "summary", "recorded_at", "risks"};
  }

  /* ---------- drafts ---------- */

  function EvidenceItems(evidence: seq<Evidence>): seq<Json> {
    if evidence == [] then [] else [EvidenceJson(evidence[0])] + EvidenceItems(evidence[1..])
  }

  function DecodeEvidenceItems(items: seq<Json>): Decoded<seq<Evidence>> {
    if items == [] then Ok([])
    else
      var head :- DecodeEvidence(items[0]);
      var tail :- DecodeEvidenceItems(items[1..]);
      Ok([head] + tail)
  }

  function HeaderFields(r: DraftRecord): map<string, Json> {
    map[
      "draft_id" := JString(r.draftId),
      "bundle_id" := JString(r.bundleId),
      "digest" := JString(r.digest),
      "state" := JString(DraftStateName(r.state)),
      "created_at" := JFloat(r.createdAt),
      "updated_at" := JFloat(r.updatedAt)]
  }

  function DraftJson(r: DraftRecord): Json {
    JObject(HeaderFields(r)["evidence" := JArray(EvidenceItems(r.evidence))])
  }

  /** The schema-v2 form of a draft, which had no evidence. */
  function LegacyDraftJson(r: DraftRecord): Json {
    JObject(HeaderFields(r))
  }

  /** The evidence the migration makes up, marked as migrated; a review as unverified. */
  function LegacyItem(target: DraftState, digest: string, at: real): Evidence {
    Evidence(target, digest, "schema-v2-migration", ExpectedOutcome(target),
             "schema v2 迁移记录；原状态没有 canonical evidence", at,
             if target.ModelReviewed? || target.ReviewFailed? then ["legacy_unverified"] else [])
  }

  function LegacyTargets(state: DraftState): seq<DraftState> {
    match state
    case Draft => []
    case StaticValidated => [DraftState.StaticValidated]
    case SandboxTested => [DraftState.StaticValidated, DraftState.SandboxTested]
    case ModelReviewed | AwaitingApproval | Approved =>
      [DraftState.StaticValidated, DraftState.SandboxTested, DraftState.ModelReviewed]
    case ValidationFailed => [DraftState.ValidationFailed]
    case TestFailed => [DraftState.StaticValidated, DraftState.TestFailed]
    case ReviewFailed => [DraftState.StaticValidated, DraftState.SandboxTested, DraftState.ReviewFailed]
    case Rejected => [DraftState.Rejected]
  }

  function LegacyItems(targets: seq<DraftState>, digest: string, at: real): (r: seq<Evidence>)
    ensures |r| == |targets| && forall i :: 0 <= i < |r| ==> r[i] == LegacyItem(targets[i], digest, at)
  {
    seq(|targets|, i requires 0 <= i < |targets| => LegacyItem(targets[i], digest, at))
  }

  function MigratedDraft(r: DraftRecord): DraftRecord {
    r.(evidence := LegacyItems(LegacyTargets(r.state), r.digest, r.updatedAt))
  }

  const HEADER_FIELDS := {"draft_id", "bundle_id", "digest", "state", "created_at", "updated_at"}

  function ParseHeader(f: map<string, Json>): Decoded<DraftRecord>
    requires HEADER_FIELDS <= f.Keys
  {
    var state :- ParseDraftState(f["state"]);
    var id :- ParseString(f["draft_id"]);
    var bundle :- ParseString(f["bundle_id"]);
    var digest :- ParseString(f["digest"]);
    var created :- ParseTime(f["created_at"]);
    var updated :- ParseTime(f["updated_at"]);
    Ok(DraftRecord(id, bundle, digest, state, created, updated, []))
  }

  function CheckDraft(r: DraftRecord): Decoded<DraftRecord> {
    if r.Ok() then Ok(r) else Err(Corrupt)
  }

  function DecodeDraft(j: Json): Decoded<DraftRecord> {
    var f :- Fields(j, HEADER_FIELDS + {"evidence"});
    var r :- ParseHeader(f);
    :- Need(f["evidence"].JArray?, Corrupt);
    var evidence :- DecodeEvidenceItems(f["evidence"].items);
    CheckDraft(r.(evidence := evidence))
  }

  function DecodeLegacyDraft(j: Json): Decoded<DraftRecord> {
    var f :- Fields(j, HEADER_FIELDS);
    var r :- ParseHeader(f);
    CheckDraft(MigratedDraft(r))
  }

  lemma {:induction false} EvidenceItemsRoundTrip(evidence: seq<Evidence>)
    requires forall i :: 0 <= i < |evidence| ==> DecodeEvidence(EvidenceJson(evidence[i])) == Ok(evidence[i])
    ensures DecodeEvidenceItems(EvidenceItems(evidence)) == Ok(evidence)
  {
    hide DecodeEvidence, EvidenceJson;
    if evidence != [] {
      EvidenceItemsRoundTrip(evidence[1..]);
      assert EvidenceItems(evidence)[1..] == EvidenceItems(evidence[1..]);
      assert evidence == [evidence[0]] + evidence[1..];
    }
  }

  lemma HeaderParses(r: DraftRecord, f: map<string, Json>)
    requires 0.0 <= r.createdAt && 0.0 <= r.updatedAt
    requires f - {"evidence"} == HeaderFields(r)
    ensures HEADER_FIELDS <= f.Keys && ParseHeader(f) == Ok(r.(evidence := []))
  {
    DraftStateNames(r.state);
    var h := HeaderFields(r);
    assert HEADER_FIELDS == h.Keys;
    assert forall k :: k in HEADER_FIELDS ==> k in f - {"evidence"} && f[k] == h[k];
  }

  lemma ChainRoundTrip(r: DraftRecord)
    requires r.EvidenceChained()
    ensures DecodeEvidenceItems(EvidenceItems(r.evidence)) == Ok(r.evidence)
  {
    hide DecodeEvidence, EvidenceJson;
    forall i | 0 <= i < |r.evidence| ensures DecodeEvidence(EvidenceJson(r.evidence[i])) == Ok(r.evidence[i]) {
      EvidenceRoundTrip(r.evidence[i]);
    }
    EvidenceItemsRoundTrip(r.evidence);
  }

  lemma DraftRoundTrip(r: DraftRecord)
    requires r.Ok()
    ensures DecodeDraft(DraftJson(r)) == Ok(r)
  {
    hide DecodeEvidenceItems, EvidenceItems, DraftRecord.EvidenceComplete;
    ChainRoundTrip(r);
    hide DraftRecord.EvidenceChained;
    var f := DraftJson(r).fields;
    assert f - {"evidence"} == HeaderFields(r);
    HeaderParses(r, f);
    assert f.Keys == HEADER_FIELDS + {"evidence"};
    assert r.(evidence := []).(evidence := r.evidence) == r;
  }

  lemma LegacyStates(e: seq<Evidence>, state: DraftState)
    requires |e| == |LegacyTargets(state)|
    requires forall i :: 0 <= i < |e| ==> e[i].state == LegacyTargets(state)[i]
    ensures EvidenceStates(e) == Required(state) <= Allowed(state)
    ensures e != [] ==> e[|e| - 1].state == ExpectedLast(state)
    ensures forall i, j :: 0 <= i < j < |e| ==> e[i].state != e[j].state
    ensures Required(state) <= EVIDENCE_STATES
  {
    var t := LegacyTargets(state);
    if |t| == 0 {
    } else if |t| == 1 {
      assert EvidenceStates(e) == {t[0]};
    } else if |t| == 2 {
      assert EvidenceStates(e) == {t[0], t[1]};
    } else {
      assert EvidenceStates(e) == {t[0], t[1], t[2]};
    }
  }

  lemma LegacyItemOk(target: DraftState, digest: string, at: real)
    requires TakesEvidence(target) && IsDigest(digest) && at >= 0.0
    ensures LegacyItem(target, digest, at).Ok()
  {
  }

  /** Made-up evidence satisfies every schema-v3 evidence rule, in every draft state. */
  lemma MigratedEvidenceOk(r: DraftRecord)
    requires r.HeaderOk()
    ensures MigratedDraft(r).Ok()
  {
    var t := LegacyTargets(r.state);
    var e := MigratedDraft(r).evidence;
    LegacyStates(e, r.state);
    forall i | 0 <= i < |e| ensures e[i].Ok() {
      assert e[i].state in EvidenceStates(e);
      LegacyItemOk(t[i], r.digest, r.updatedAt);
    }
  }

  /** A schema-v2 draft decodes to itself with the made-up evidence. */
  // Made up by the migration, and marked so; a review is moreover marked as unverified.
  predicate Marked(e: Evidence, r: DraftRecord) {
    && e.producer == "schema-v2-migration" && e.draftDigest == r.digest && e.recordedAt == r.updatedAt
    && ("legacy_unverified" in e.risks <==> e.state == DraftState.ModelReviewed || e.state == DraftState.ReviewFailed)
  }

  /** Whatever schema-v2 draft is decoded, all its evidence is marked, and there is no more than its state requires. */
  lemma MigrationIsMarked(j: Json)
    ensures DecodeLegacyDraft(j).Ok? ==>
              var r := DecodeLegacyDraft(j).value;
              && EvidenceStates(r.evidence) == Required(r.state) && |r.evidence| == |Required(r.state)|
              && forall i :: 0 <= i < |r.evidence| ==> Marked(r.evidence[i], r)
  {
    hide DraftRecord.Ok, ParseHeader, LegacyTargets, Required, EvidenceStates;
    if DecodeLegacyDraft(j).Ok? {
      var r := DecodeLegacyDraft(j).value;
      LegacyStates(r.evidence, r.state);
      LegacyCounts(r.state);
    }
  }

  lemma LegacyCounts(state: DraftState)
    ensures |LegacyTargets(state)| == |Required(state)|
  {
  }

  lemma LegacyDraftMigrates(r: DraftRecord)
    requires r.HeaderOk()
    ensures DecodeLegacyDraft(LegacyDraftJson(r)) == Ok(MigratedDraft(r))
  {
    assert HeaderFields(r) - {"evidence"} == HeaderFields(r);
    HeaderParses(r, HeaderFields(r));
    assert MigratedDraft(r.(evidence := [])) == MigratedDraft(r);
    MigratedEvidenceOk(r);
  }

  /* ---------- versions and grants ---------- */

  function VersionJson(v: VersionRecord): Json {
    JObject(map[
      "bundle_id" := JString(v.bundleId),
      "digest" := JString(v.digest),
      "state" := JString(VersionStateName(v.state)),
      "source_draft_id" := OptStringJson(v.sourceDraftId),
      "created_at" := JFloat(v.createdAt),
      "approved_at" := JFloat(v.approvedAt),
      "activated_at" := OptTimeJson(v.activatedAt),
      "deprecated_at" := OptTimeJson(v.deprecatedAt),
      "archived_at" := OptTimeJson(v.archivedAt)])
  }

  const VERSION_FIELDS := {"bundle_id", "digest", "state", "source_draft_id", "created_at",
                           "approved_at", "activated_at", "deprecated_at", "archived_at"}

  function DecodeVersion(j: Json): Decoded<VersionRecord> {
    var f :- Fields(j, VERSION_FIELDS);
    var state :- ParseVersionState(f["state"]);
    var bundle :- ParseString(f["bundle_id"]);
    var digest :- ParseString(f["digest"]);
    var source :- ParseOptString(f["source_draft_id"]);
    var created :- ParseTime(f["created_at"]);
    var approved :- ParseTime(f["approved_at"]);
    var activated :- ParseOptTime(f["activated_at"]);
    var deprecated :- ParseOptTime(f["deprecated_at"]);
    var archived :- ParseOptTime(f["archived_at"]);
    var v := VersionRecord(bundle, digest, state, source, created, approved, activated, deprecated, archived);
    :- Need(v.Ok(), Corrupt);
    Ok(v)
  }

  lemma VersionRoundTrip(v: VersionRecord)
    requires v.Ok()
    ensures DecodeVersion(VersionJson(v)) == Ok(v)
  {
    assert ParseVersionState(JString(VersionStateName(v.state))) == Ok(v.state) by {
      match v.state { case Approved => case _ => }
    }
    assert VersionJson(v).fields.Keys == VERSION_FIELDS;
  }

  function GrantJson(g: Grant): Json {
    JObject(map[
      "approved" := JBool(true), "approved_by" := JString(g.approvedBy), "approved_at" := JFloat(g.approvedAt)])
  }

  function DecodeGrant(j: Json): Decoded<Grant> {
    var f :- Fields(j, {"approved", "approved_by", "approved_at"});
    :- Need(f["approved"] == JBool(true), Corrupt);
    var who :- ParseString(f["approved_by"]);
    var at :- ParseTime(f["approved_at"]);
    :- Need(Grant(who, at).Ok(), Corrupt);
    Ok(Grant(who, at))
  }

  lemma GrantRoundTrip(g: Grant)
    requires g.Ok()
    ensures DecodeGrant(GrantJson(g)) == Ok(g)
  {
    assert GrantJson(g).fields.Keys == {"approved", "approved_by", "approved_at"};
  }

  /* ---------- the whole document ---------- */

  function EncodeMap<T>(m: map<string, T>, encode: T -> Json): Json {
    JObject(map k | k in m :: encode(m[k]))
  }

  function DecodeMap<T>(j: Json, decode: Json -> Decoded<T>): Decoded<map<string, T>> {
    if j.JObject? && forall k :: k in j.fields ==> decode(j.fields[k]).Ok? then
      Ok(map k | k in j.fields :: decode(j.fields[k]).value)
    else Err(Corrupt)
  }

  lemma MapConversion<S, T>(m: map<string, S>, encode: S -> Json, decode: Json -> Decoded<T>, r: map<string, T>)
    requires m.Keys == r.Keys
    requires forall k :: k in m ==> decode(encode(m[k])) == Ok(r[k])
    ensures DecodeMap(EncodeMap(m, encode), decode) == Ok(r)
  {
    var j := EncodeMap(m, encode);
    assert forall k :: k in j.fields ==> decode(j.fields[k]) == Ok(r[k]);
    assert (map k | k in j.fields :: decode(j.fields[k]).value) == r;
  }

  lemma MapRoundTrip<T>(m: map<string, T>, encode: T -> Json, decode: Json -> Decoded<T>)
    requires forall k :: k in m ==> decode(encode(m[k])) == Ok(m[k])
    ensures DecodeMap(EncodeMap(m, encode), decode) == Ok(m)
  {
    MapConversion(m, encode, decode, m);
  }

  function BundleJson(versions: map<string, VersionRecord>): Json {
    EncodeMap(versions, VersionJson)
  }

  function DecodeBundle(j: Json): Decoded<map<string, VersionRecord>> {
    DecodeMap(j, DecodeVersion)
  }

  const STATE_FIELDS := {"schema_version", "revision", "drafts", "versions", "active", "permission_grants"}

  function Document(version: int, revision: int, drafts: Json, versions: Json, active: Json, grants: Json): Json {
    JObject(map[
      "schema_version" := JInt(version),
      "revision" := JInt(revision),
      "drafts" := drafts,
      "versions" := versions,
      "active" := active,
      "permission_grants" := grants])
  }

  function StateDocument(version: int, s: LifecycleState, drafts: Json): Json {
    Document(version, s.revision, drafts, EncodeMap(s.versions, BundleJson), EncodeMap(s.active, StringJson),
             EncodeMap(s.grants, GrantJson))
  }

  function EncodeState(s: LifecycleState): Json {
    StateDocument(3, s, EncodeMap(s.drafts, DraftJson))
  }

  function EncodeLegacy(s: LifecycleState): Json {
    StateDocument(2, s, EncodeMap(s.drafts, LegacyDraftJson))
  }

  predicate NumberIs(j: Json, n: int) {
    j == JInt(n) || j == JFloat(n as real)
  }

  function DecodeDrafts(j: Json, version: Json): Decoded<map<string, DraftRecord>> {
    if NumberIs(version, 3) then DecodeMap(j, DecodeDraft) else DecodeMap(j, DecodeLegacyDraft)
  }

  function ParseState(j: Json): Decoded<LifecycleState> {
    var f :- Fields(j, STATE_FIELDS);
    var version := f["schema_version"];
    :- Need(NumberIs(version, 2) || NumberIs(version, 3), Corrupt);
    var drafts :- DecodeDrafts(f["drafts"], version);
    var versions :- DecodeMap(f["versions"], DecodeBundle);
    var active :- DecodeMap(f["active"], ParseString);
    var grants :- DecodeMap(f["permission_grants"], DecodeGrant);
    :- Need(f["revision"].JInt?, Corrupt);
    Ok(LifecycleState(f["revision"].whole, drafts, versions, active, grants))
  }

  function CheckState(s: LifecycleState): (r: Decoded<LifecycleState>)
    ensures r.Ok? <==> s.WellFormed()
    ensures r.Ok? ==> r.value == s
  {
    if s.WellFormed() then Ok(s) else Err(Corrupt)
  }

  function DecodeState(j: Json): Decoded<LifecycleState> {
    var s :- ParseState(j);
    CheckState(s)
  }

  lemma BundleRoundTrip(m: map<string, VersionRecord>)
    requires forall d :: d in m ==> m[d].Ok()
    ensures DecodeBundle(BundleJson(m)) == Ok(m)
  {
    forall d | d in m ensures DecodeVersion(VersionJson(m[d])) == Ok(m[d]) {
      VersionRoundTrip(m[d]);
    }
    MapRoundTrip(m, VersionJson, DecodeVersion);
  }

  lemma VersionsRoundTrip(s: LifecycleState)
    requires s.VersionsOk()
    ensures DecodeMap(EncodeMap(s.versions, BundleJson), DecodeBundle) == Ok(s.versions)
  {
    forall b | b in s.versions ensures DecodeBundle(BundleJson(s.versions[b])) == Ok(s.versions[b]) {
      assert forall d :: d in s.versions[b] ==> Find(s.versions, b, d) == Some(s.versions[b][d]);
      BundleRoundTrip(s.versions[b]);
    }
    MapRoundTrip(s.versions, BundleJson, DecodeBundle);
  }

  lemma GrantsRoundTrip(s: LifecycleState)
    requires s.GrantsOk()
    ensures DecodeMap(EncodeMap(s.grants, GrantJson), DecodeGrant) == Ok(s.grants)
  {
    forall k | k in s.grants ensures DecodeGrant(GrantJson(s.grants[k])) == Ok(s.grants[k]) {
      GrantRoundTrip(s.grants[k]);
    }
    MapRoundTrip(s.grants, GrantJson, DecodeGrant);
  }

  lemma PartsRoundTrip(s: LifecycleState)
    requires s.VersionsOk() && s.GrantsOk()
    ensures DecodeMap(EncodeMap(s.versions, BundleJson), DecodeBundle) == Ok(s.versions)
    ensures DecodeMap(EncodeMap(s.active, StringJson), ParseString) == Ok(s.active)
    ensures DecodeMap(EncodeMap(s.grants, GrantJson), DecodeGrant) == Ok(s.grants)
  {
    VersionsRoundTrip(s);
    GrantsRoundTrip(s);
    MapRoundTrip(s.active, StringJson, ParseString);
  }

  lemma DocumentParses(version: int, drafts: Json, versions: Json, active: Json, grants: Json, s: LifecycleState)
    requires version == 2 || version == 3
    requires DecodeDrafts(drafts, JInt(version)) == Ok(s.drafts)
    requires DecodeMap(versions, DecodeBundle) == Ok(s.versions)
    requires DecodeMap(active, ParseString) == Ok(s.active)
    requires DecodeMap(grants, DecodeGrant) == Ok(s.grants)
    ensures ParseState(Document(version, s.revision, drafts, versions, active, grants)) == Ok(s)
  {
    hide DecodeMap, DecodeDrafts;
    assert Document(version, s.revision, drafts, versions, active, grants).fields.Keys == STATE_FIELDS;
  }

  lemma StateDocumentParses(version: int, s: LifecycleState, drafts: Json, decoded: map<string, DraftRecord>)
    requires version == 2 || version == 3
    requires DecodeDrafts(drafts, JInt(version)) == Ok(decoded)
    requires s.VersionsOk() && s.GrantsOk()
    ensures ParseState(StateDocument(version, s, drafts)) == Ok(s.(drafts := decoded))
  {
    PartsRoundTrip(s);
    DocumentParses(version, drafts, EncodeMap(s.versions, BundleJson), EncodeMap(s.active, StringJson),
                   EncodeMap(s.grants, GrantJson), s.(drafts := decoded));
  }

  /** Decoding inverts encoding on every well-formed state. */
  lemma StateRoundTrip(s: LifecycleState)
    requires s.WellFormed()
    ensures DecodeState(EncodeState(s)) == Ok(s)
  {
    forall id | id in s.drafts ensures DecodeDraft(DraftJson(s.drafts[id])) == Ok(s.drafts[id]) {
      DraftRoundTrip(s.drafts[id]);
    }
    MapRoundTrip(s.drafts, DraftJson, DecodeDraft);
    StateDocumentParses(3, s, EncodeMap(s.drafts, DraftJson), s.drafts);
  }

  /** Only well-formed states are ever decoded, whatever the document. */
  lemma DecodedIsWellFormed(j: Json)
    ensures DecodeState(j).Ok? ==> DecodeState(j).value.WellFormed()
  {
    if ParseState(j).Ok? {
      var _ := CheckState(ParseState(j).value);
    }
  }

  function Migrated(s: LifecycleState): LifecycleState {
    s.(drafts := map id | id in s.drafts :: MigratedDraft(s.drafts[id]))
  }

  /** A state as schema v2 held it: everything well formed except that no draft carries evidence. */
  predicate LegacyWellFormed(s: LifecycleState) {
    && s.revision >= 0 && s.VersionsOk() && s.ActiveOk() && s.GrantsOk() && s.ApprovedBacked()
    && forall id :: id in s.drafts ==>
      s.drafts[id].HeaderOk() && s.drafts[id].draftId == id && s.drafts[id].evidence == []
  }

  lemma MigratedWellFormed(s: LifecycleState)
    requires LegacyWellFormed(s)
    ensures Migrated(s).WellFormed()
  {
    forall id | id in s.drafts ensures Migrated(s).drafts[id].Ok() {
      MigratedEvidenceOk(s.drafts[id]);
    }
  }

  /** Every schema-v2 document migrates, and its next canonical write reads back as the same state. */
  lemma LegacyStateMigrates(s: LifecycleState)
    requires LegacyWellFormed(s)
    ensures DecodeState(EncodeLegacy(s)) == Ok(Migrated(s))
    ensures DecodeState(EncodeState(Migrated(s))) == Ok(Migrated(s))
  {
    forall id | id in s.drafts
      ensures DecodeLegacyDraft(LegacyDraftJson(s.drafts[id])) == Ok(MigratedDraft(s.drafts[id]))
    {
      LegacyDraftMigrates(s.drafts[id]);
    }
    MapConversion(s.drafts, LegacyDraftJson, DecodeLegacyDraft, Migrated(s).drafts);
    StateDocumentParses(2, s, EncodeMap(s.drafts, LegacyDraftJson), Migrated(s).drafts);
    MigratedWellFormed(s);
    StateRoundTrip(Migrated(s));
  }

  /* ---------- nothing else is accepted ---------- */

  /** The same document, where a number may be written as an integer or as a float. */
  predicate Alike(a: Json, b: Json) {
    match a
    case JInt(n) => b == JInt(n) || b == JFloat(n as real)
    case JFloat(x) => b == a || (b.JInt? && b.whole as real == x)
    case JArray(items) =>
      b.JArray? && |items| == |b.items| && forall i :: 0 <= i < |items| ==> Alike(items[i], b.items[i])
    case JObject(fields) =>
      b.JObject? && fields.Keys == b.fields.Keys && forall k :: k in fields ==> Alike(fields[k], b.fields[k])
    case _ => a == b
  }

  lemma ParsedDraftState(j: Json)
    ensures ParseDraftState(j).Ok? ==> j == JString(DraftStateName(ParseDraftState(j).value))
  {
  }

  lemma ParsedVersionState(j: Json)
    ensures ParseVersionState(j).Ok? ==> j == JString(VersionStateName(ParseVersionState(j).value))
  {
  }

  lemma ParsedTimes(j: Json)
    ensures ParseTime(j).Ok? ==> Alike(j, JFloat(ParseTime(j).value))
    ensures ParseOptTime(j).Ok? ==> Alike(j, OptTimeJson(ParseOptTime(j).value))
    ensures ParseOptString(j).Ok? ==> j == OptStringJson(ParseOptString(j).value)
  {
  }

  lemma {:induction false} ParsedStrings(items: seq<Json>)
    ensures ParseStrings(items).Ok? ==> items == Texts(ParseStrings(items).value)
  {
    if items != [] && ParseStrings(items).Ok? {
      ParsedStrings(items[1..]);
      assert ParseStrings(items).value[1..] == ParseStrings(items[1..]).value;
      assert items == [items[0]] + items[1..];
    }
  }

  lemma {:induction false} AlikeItself(j: Json)
    ensures Alike(j, j)
  {
    match j {
      case JArray(items) =>
        forall i | 0 <= i < |items| ensures Alike(items[i], items[i]) {
          AlikeItself(items[i]);
        }
      case JObject(fields) =>
        forall k | k in fields ensures Alike(fields[k], fields[k]) {
          AlikeItself(fields[k]);
        }
      case _ =>
    }
  }

  lemma FieldsAlike(f: map<string, Json>, e: map<string, Json>)
    requires f.Keys == e.Keys && forall k :: k in f ==> f[k] == e[k] || Alike(f[k], e[k])
    ensures Alike(JObject(f), JObject(e))
  {
    forall k | k in f ensures Alike(f[k], e[k]) {
      AlikeItself(f[k]);
    }
  }

  lemma DecodedEvidence(j: Json)
    ensures DecodeEvidence(j).Ok? ==> Alike(j, EvidenceJson(DecodeEvidence(j).value))
  {
    hide Evidence.Ok, ParseStrings, ParseDraftState, DraftStateName, ParseTime, Texts, Alike;
    if DecodeEvidence(j).Ok? {
      var f, e := j.fields, EvidenceJson(DecodeEvidence(j).value).fields;
      ParsedDraftState(f["state"]);
      ParsedTimes(f["recorded_at"]);
      ParsedStrings(f["risks"].items);
      assert f.Keys == e.Keys;
      assert f["risks"] == JArray(f["risks"].items) == e["risks"];
      FieldsAlike(f, e);
    }
  }

  lemma {:induction false} DecodedItems(items: seq<Json>)
    ensures DecodeEvidenceItems(items).Ok? ==>
              Alike(JArray(items), JArray(EvidenceItems(DecodeEvidenceItems(items).value)))
  {
    hide DecodeEvidence, EvidenceJson;
    if items != [] && DecodeEvidenceItems(items).Ok? {
      var rest, all := DecodeEvidenceItems(items[1..]).value, DecodeEvidenceItems(items).value;
      DecodedItems(items[1..]);
      DecodedEvidence(items[0]);
      assert all[1..] == rest && EvidenceItems(all) == [EvidenceJson(all[0])] + EvidenceItems(rest);
      forall i | 0 <= i < |items| ensures Alike(items[i], EvidenceItems(all)[i]) {
        if i > 0 {
          assert items[i] == items[1..][i - 1] && EvidenceItems(all)[i] == EvidenceItems(rest)[i - 1];
        }
      }
    }
  }

  lemma ParsedHeader(f: map<string, Json>)
    requires HEADER_FIELDS <= f.Keys && ParseHeader(f).Ok?
    ensures forall k :: k in HEADER_FIELDS ==> k in HeaderFields(ParseHeader(f).value)
                                               && Alike(f[k], HeaderFields(ParseHeader(f).value)[k])
  {
    hide ParseDraftState, DraftStateName, ParseTime;
    ParsedDraftState(f["state"]);
    ParsedTimes(f["created_at"]);
    ParsedTimes(f["updated_at"]);
  }

  lemma DecodedDraft(j: Json)
    ensures DecodeDraft(j).Ok? ==> Alike(j, DraftJson(DecodeDraft(j).value))
  {
    hide DraftRecord.Ok, ParseHeader, DecodeEvidenceItems, EvidenceItems;
    if DecodeDraft(j).Ok? {
      var f, r := j.fields, DecodeDraft(j).value;
      ParsedHeader(f);
      DecodedItems(f["evidence"].items);
      assert HeaderFields(r) == HeaderFields(ParseHeader(f).value);
      assert DraftJson(r).fields.Keys == HEADER_FIELDS + {"evidence"};
      assert f["evidence"] == JArray(f["evidence"].items);
      forall k | k in f ensures Alike(f[k], DraftJson(r).fields[k]) {
      }
    }
  }

  lemma DecodedVersion(j: Json)
    ensures DecodeVersion(j).Ok? ==> Alike(j, VersionJson(DecodeVersion(j).value))
  {
    hide VersionRecord.Ok, ParseVersionState, VersionStateName, ParseTime, ParseOptTime, ParseOptString;
    hide OptTimeJson, OptStringJson, Alike;
    if DecodeVersion(j).Ok? {
      var f, e := j.fields, VersionJson(DecodeVersion(j).value).fields;
      ParsedVersionState(f["state"]);
      ParsedTimes(f["created_at"]);
      ParsedTimes(f["approved_at"]);
      ParsedTimes(f["activated_at"]);
      ParsedTimes(f["deprecated_at"]);
      ParsedTimes(f["archived_at"]);
      ParsedTimes(f["source_draft_id"]);
      assert e.Keys == VERSION_FIELDS;
      FieldsAlike(f, e);
    }
  }

  lemma DecodedGrant(j: Json)
    ensures DecodeGrant(j).Ok? ==> Alike(j, GrantJson(DecodeGrant(j).value))
  {
    hide Grant.Ok, ParseTime;
    if DecodeGrant(j).Ok? {
      var f, e := j.fields, GrantJson(DecodeGrant(j).value).fields;
      ParsedTimes(f["approved_at"]);
      assert f.Keys == e.Keys;
      forall k | k in f ensures Alike(f[k], e[k]) {
      }
    }
  }

  lemma DecodedMap<T>(j: Json, encode: T -> Json, decode: Json -> Decoded<T>)
    requires forall x {:trigger decode(x)} :: decode(x).Ok? ==> Alike(x, encode(decode(x).value))
    ensures DecodeMap(j, decode).Ok? ==> Alike(j, EncodeMap(DecodeMap(j, decode).value, encode))
  {
    if DecodeMap(j, decode).Ok? {
      var m := DecodeMap(j, decode).value;
      var e := EncodeMap(m, encode);
      assert j.fields.Keys == m.Keys == e.fields.Keys;
      forall k | k in j.fields ensures Alike(j.fields[k], e.fields[k]) {
        assert decode(j.fields[k]).Ok? && m[k] == decode(j.fields[k]).value;
      }
    }
  }

  lemma DecodedParts(drafts: Json, versions: Json, active: Json, grants: Json)
    ensures DecodeMap(drafts, DecodeDraft).Ok? ==>
              Alike(drafts, EncodeMap(DecodeMap(drafts, DecodeDraft).value, DraftJson))
    ensures DecodeMap(versions, DecodeBundle).Ok? ==>
              Alike(versions, EncodeMap(DecodeMap(versions, DecodeBundle).value, BundleJson))
    ensures DecodeMap(active, ParseString).Ok? ==>
              Alike(active, EncodeMap(DecodeMap(active, ParseString).value, StringJson))
    ensures DecodeMap(grants, DecodeGrant).Ok? ==>
              Alike(grants, EncodeMap(DecodeMap(grants, DecodeGrant).value, GrantJson))
  {
    hide DecodeMap, EncodeMap, Alike, DecodeDraft, DraftJson, DecodeVersion, VersionJson, DecodeGrant, GrantJson;
    forall x | DecodeDraft(x).Ok? ensures Alike(x, DraftJson(DecodeDraft(x).value)) { DecodedDraft(x); }
    DecodedMap(drafts, DraftJson, DecodeDraft);
    forall x | DecodeBundle(x).Ok? ensures Alike(x, BundleJson(DecodeBundle(x).value)) { DecodedBundle(x); }
    DecodedMap(versions, BundleJson, DecodeBundle);
    forall x | ParseString(x).Ok? ensures Alike(x, StringJson(ParseString(x).value)) { AlikeItself(x); }
    DecodedMap(active, StringJson, ParseString);
    forall x | DecodeGrant(x).Ok? ensures Alike(x, GrantJson(DecodeGrant(x).value)) { DecodedGrant(x); }
    DecodedMap(grants, GrantJson, DecodeGrant);
  }

  lemma DecodedBundle(j: Json)
    ensures DecodeBundle(j).Ok? ==> Alike(j, BundleJson(DecodeBundle(j).value))
  {
    hide DecodeMap, EncodeMap, Alike, DecodeVersion, VersionJson;
    forall x | DecodeVersion(x).Ok? ensures Alike(x, VersionJson(DecodeVersion(x).value)) { DecodedVersion(x); }
    DecodedMap(j, VersionJson, DecodeVersion);
  }

  /** A document of the current schema that decodes is the encoding of its state, but for the form of numbers. */
  lemma OnlyEncodingsDecode(j: Json)
    requires DecodeState(j).Ok? && NumberIs(j.fields["schema_version"], 3)
    ensures Alike(j, EncodeState(DecodeState(j).value))
  {
    hide LifecycleState.WellFormed, DecodeMap, EncodeMap;
    var f, s := j.fields, DecodeState(j).value;
    var e := EncodeState(s).fields;
    DecodedParts(f["drafts"], f["versions"], f["active"], f["permission_grants"]);
    assert e.Keys == STATE_FIELDS;
    hide DecodeDraft, DecodeBundle, DecodeGrant, DraftJson, BundleJson, GrantJson;
    forall k | k in f ensures Alike(f[k], e[k]) {
    }
  }

  /* ---------- digests ---------- */

  /** SHA-256 over canonical JSON, idealised as an injective constructor. */
  datatype Digest = Sha256(document: Json)

  function StateDigest(s: LifecycleState): Digest {
    Sha256(EncodeState(s))
  }

  /** The state digest separates well-formed states, revision included. */
  lemma DigestSeparates(a: LifecycleState, b: LifecycleState)
    requires a.WellFormed() && b.WellFormed()
    ensures StateDigest(a) == StateDigest(b) <==> a == b
  {
    StateRoundTrip(a);
    StateRoundTrip(b);
  }
}
