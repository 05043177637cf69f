/**
 Pointing Claude Code at the proxy and putting its settings back: what applying writes, the
 snapshot it takes of the two fields it owns, and what reverting restores.
 */
module ClaudeSettings {
  import opened Options
  import HelperCommand

  datatype Json =
    | Null
    | Bool(b: bool)
    | Num(n: real)
    | Str(s: string)
    | Arr(items: seq<Json>)
    | Obj(fields: map<string, Json>)

  type Record = map<string, Json>

  const HELPER_LABEL := "claude-code"
  const PROXY_BASE_URL := Str("http://127.0.0.1:4141")
  const API_KEY_HELPER_KEY := "apiKeyHelper"
  const BASE_URL_KEY := "ANTHROPIC_BASE_URL"
  const ENV_KEY := "env"
  const PRIOR_KEY := "_maximalPrior"
  const UNSET := Str("__UNSET__")

  function Get(r: Record, key: string): Option<Json> {
    if key in r then Some(r[key]) else None
  }

  function ReadEnv(settings: Record): Record {
    if ENV_KEY in settings && settings[ENV_KEY].Obj? then settings[ENV_KEY].fields else map[]
  }

  function BaseUrl(settings: Record): Option<Json> {
    Get(ReadEnv(settings), BASE_URL_KEY)
  }

  // ----- ownership -----

  datatype Ownership = Ours | Foreign | Absent

  predicate OwnedHelper(v: Json) {
    v.Str? && HelperCommand.IsOwned(v.s, Some(HELPER_LABEL))
  }

  function BaseUrlOwnership(settings: Record): Ownership {
    if BASE_URL_KEY !in ReadEnv(settings) then Absent
    else if ReadEnv(settings)[BASE_URL_KEY] == PROXY_BASE_URL then Ours
    else Foreign
  }

  function HelperOwnership(settings: Record): Ownership {
    if API_KEY_HELPER_KEY !in settings then Absent
    else if OwnedHelper(settings[API_KEY_HELPER_KEY]) then Ours
    else Foreign
  }

  // ----- merging and stripping -----

  function OrUnset(v: Option<Json>): Json {
    if v.Some? then v.value else UNSET
  }

  /** The prior values of the two fields, taken only when no snapshot exists yet. */
  function PriorOf(existing: Record): Json {
    if PRIOR_KEY in existing then existing[PRIOR_KEY]
    else Obj(map[BASE_URL_KEY := OrUnset(BaseUrl(existing)),
                 API_KEY_HELPER_KEY := OrUnset(Get(existing, API_KEY_HELPER_KEY))])
  }

  function Merged(existing: Record, command: string): Record {
    existing[ENV_KEY := Obj(ReadEnv(existing)[BASE_URL_KEY := PROXY_BASE_URL])]
            [API_KEY_HELPER_KEY := Str(command)]
            [PRIOR_KEY := PriorOf(existing)]
  }

  function WithRestoredField(target: Record, key: string, prior: Json): Record {
    if prior == UNSET then target - {key} else target[key := prior]
  }

  function WithEnv(base: Record, env: Record): Record {
    if env == map[] then base else base[ENV_KEY := Obj(env)]
  }

  function Stripped(existing: Record): Record {
    var rest := existing - {PRIOR_KEY, ENV_KEY};
    var env := ReadEnv(existing);
    if PRIOR_KEY in existing && existing[PRIOR_KEY].Obj? then
      var snapshot := existing[PRIOR_KEY].fields;
      WithEnv(
        WithRestoredField(rest - {API_KEY_HELPER_KEY}, API_KEY_HELPER_KEY, OrUnset(Get(snapshot, API_KEY_HELPER_KEY))),
        WithRestoredField(env - {BASE_URL_KEY}, BASE_URL_KEY, OrUnset(Get(snapshot, BASE_URL_KEY))))
    else
      WithEnv(
        if API_KEY_HELPER_KEY in existing && OwnedHelper(existing[API_KEY_HELPER_KEY])
          then rest - {API_KEY_HELPER_KEY} else rest,
        if Get(env, BASE_URL_KEY) == Some(PROXY_BASE_URL) then env - {BASE_URL_KEY} else env)
  }

  // ----- apply and revert, on settings -----

  /** Whether apply writes: both fields ours but stale, or neither field someone else's. */
  predicate ApplyWrites(existing: Record, command: string) {
    if BaseUrlOwnership(existing).Ours? && HelperOwnership(existing).Ours?
    then existing[API_KEY_HELPER_KEY] != Str(command)
    else !BaseUrlOwnership(existing).Foreign? && !HelperOwnership(existing).Foreign?
  }

  function Applied(existing: Record, command: string): Record {
    if ApplyWrites(existing, command) then Merged(existing, command) else existing
  }

  predicate RevertWrites(existing: Record) {
    BaseUrlOwnership(existing).Ours? || HelperOwnership(existing).Ours?
  }

  function Reverted(existing: Record): Record {
    if RevertWrites(existing) then Stripped(existing) else existing
  }

  // ----- the file -----

  /** Absent, or text: either a JSON value, or something blank or unparsable. */
  datatype File = Missing | Text(parsed: Option<Json>)

  function ReadSettings(file: File): Record {
    if file.Text? && file.parsed.Some? && file.parsed.value.Obj? then file.parsed.value.fields else map[]
  }

  datatype SkipReason = AlreadyOurs | ForeignBaseUrl | ForeignApiKeyHelper

  class SettingsFile {
    var file: File

    constructor (file: File)
      ensures this.file == file
    {
      this.file := file;
    }

    method WriteSettings(settings: Record)
      modifies this
      ensures file == Text(Some(Obj(settings)))
    {
      file := Text(Some(Obj(settings)));
    }

    method ApplyProxyBaseUrl(command: string) returns (wrote: bool, skipped: Option<SkipReason>)
      modifies this
      ensures wrote == ApplyWrites(ReadSettings(old(file)), command)
      ensures ReadSettings(file) == Applied(ReadSettings(old(file)), command)
      ensures !wrote ==> file == old(file)
      ensures wrote <==> skipped.None?
      ensures wrote ==>
                BaseUrl(ReadSettings(file)) == Some(PROXY_BASE_URL)
                && Get(ReadSettings(file), API_KEY_HELPER_KEY) == Some(Str(command))
      ensures skipped == Some(ForeignBaseUrl) <==>
                BaseUrl(ReadSettings(file)).Some? && BaseUrl(ReadSettings(file)) != Some(PROXY_BASE_URL)
      ensures skipped == Some(AlreadyOurs) ==>
                BaseUrl(ReadSettings(file)) == Some(PROXY_BASE_URL)
                && Get(ReadSettings(file), API_KEY_HELPER_KEY) == Some(Str(command))
    {
      var existing := ReadSettings(file);
      var baseUrl, helper := BaseUrlOwnership(existing), HelperOwnership(existing);
      if baseUrl.Ours? && helper.Ours? {
        if existing[API_KEY_HELPER_KEY] == Str(command) {
          return false, Some(AlreadyOurs);
        }
        WriteSettings(Merged(existing, command));
        return true, None;
      }
      if baseUrl.Foreign? {
        return false, Some(ForeignBaseUrl);
      }
      if helper.Foreign? {
        return false, Some(ForeignApiKeyHelper);
      }
      WriteSettings(Merged(existing, command));
      return true, None;
    }

    /** Put the settings back; a file with nothing left in it is deleted. */
    method RevertProxyBaseUrl() returns (wrote: bool, remainingKeys: set<string>)
      modifies this
      ensures wrote == RevertWrites(ReadSettings(old(file)))
      ensures ReadSettings(file) == Reverted(ReadSettings(old(file)))
      ensures remainingKeys == ReadSettings(file).Keys
      ensures !wrote ==> file == old(file)
      ensures wrote ==> (file.Missing? <==> remainingKeys == {})
    {
      var existing := ReadSettings(file);
      if !BaseUrlOwnership(existing).Ours? && !HelperOwnership(existing).Ours? {
        return false, existing.Keys;
      }
      var stripped := Stripped(existing);
      if stripped.Keys == {} {
        assert stripped == map[];
        file := Missing;
        return true, {};
      }
      WriteSettings(stripped);
      return true, stripped.Keys;
    }
  }

  // ----- the two fields come back -----

  /** Where an owned field stands: its value, or its absence. */
  datatype Owned = Owned(baseUrl: Option<Json>, helper: Option<Json>)

  function OwnedFields(settings: Record): Owned {
    Owned(BaseUrl(settings), Get(settings, API_KEY_HELPER_KEY))
  }

  /** After a first apply: our base URL is in place, and the snapshot holds what was there before. */
  predicate Holds(settings: Record, before: Owned) {
    && BaseUrl(settings) == Some(PROXY_BASE_URL)
    && Get(settings, PRIOR_KEY) ==
       Some(Obj(map[BASE_URL_KEY := OrUnset(before.baseUrl), API_KEY_HELPER_KEY := OrUnset(before.helper)]))
  }

  /** Nobody is using our sentinel as a real value. */
  predicate NotSentinel(before: Owned) {
    before.baseUrl != Some(UNSET) && before.helper != Some(UNSET)
  }

  datatype Step =
    | Apply(command: string)
    | Edit(settings: Record)

  /** The user may change anything but the two owned fields and the snapshot. */
  predicate EditsOthers(before: Record, after: Record) {
    OwnedFields(after) == OwnedFields(before) && Get(after, PRIOR_KEY) == Get(before, PRIOR_KEY)
  }

  function After(s: Record, steps: seq<Step>): Record
    decreases |steps|
  {
    if steps == [] then s
    else After(match steps[0] case Apply(command) => Applied(s, command) case Edit(settings) => settings, steps[1..])
  }

  predicate Legal(s: Record, steps: seq<Step>)
    decreases |steps|
  {
    steps == [] ||
    match steps[0]
    case Apply(command) => Legal(Applied(s, command), steps[1..])
    case Edit(settings) => EditsOthers(s, settings) && Legal(settings, steps[1..])
  }

  /** A setting that is neither owned nor part of the bookkeeping. */
  predicate Other(key: string) {
    key != ENV_KEY && key != API_KEY_HELPER_KEY && key != PRIOR_KEY
  }

  /** Applying leaves every other setting, and every other environment variable, alone. */
  lemma ApplyTouchesOnlyOwned(s: Record, command: string)
    ensures forall key :: Other(key) ==> Get(Applied(s, command), key) == Get(s, key)
    ensures forall name :: name != BASE_URL_KEY ==> Get(ReadEnv(Applied(s, command)), name) == Get(ReadEnv(s), name)
  {
  }

  /** The sentinel is not a command of ours, so a field holding it would have stopped the apply. */
  lemma SentinelIsForeign()
    ensures !OwnedHelper(UNSET)
  {
    HelperCommand.PlainWordIsSelfToken("__UNSET__");
    LoneWordIsForeign(UNSET, UNSET.s);
  }

  lemma LoneWordIsForeign(v: Json, w: string)
    requires v == Str(w) && HelperCommand.SelfToken(w)
    ensures !OwnedHelper(v)
  {
    HelperCommand.ClientLabelReadsBack();
    HelperCommand.LoneWordIsNotOwned(w, Some(HELPER_LABEL));
  }

  lemma AppliedFieldsAreNotSentinel(s: Record, command: string)
    requires ApplyWrites(s, command)
    ensures NotSentinel(OwnedFields(s))
  {
    SentinelIsForeign();
    assert !HelperOwnership(s).Foreign? && !BaseUrlOwnership(s).Foreign?;
    assert PROXY_BASE_URL.s[0] != UNSET.s[0];
  }

  lemma FirstApplyHolds(s: Record, command: string)
    requires PRIOR_KEY !in s && ApplyWrites(s, command)
    ensures Holds(Applied(s, command), OwnedFields(s)) && NotSentinel(OwnedFields(s))
  {
    AppliedFieldsAreNotSentinel(s, command);
    assert Applied(s, command) == Merged(s, command);
  }

  lemma {:induction false} HoldsThroughout(s: Record, steps: seq<Step>, before: Owned)
    requires Holds(s, before) && Legal(s, steps)
    ensures Holds(After(s, steps), before)
    decreases |steps|
  {
    if steps != [] {
      var next := match steps[0] case Apply(command) => Applied(s, command) case Edit(settings) => settings;
      assert Holds(next, before);
      HoldsThroughout(next, steps[1..], before);
    }
  }

  /** What reverting does to settings that hold a snapshot. */
  lemma RevertRestores(s: Record, before: Owned)
    requires Holds(s, before) && NotSentinel(before)
    ensures OwnedFields(Reverted(s)) == before
    ensures PRIOR_KEY !in Reverted(s)
    ensures forall key :: Other(key) ==> Get(Reverted(s), key) == Get(s, key)
    ensures forall name :: name != BASE_URL_KEY ==> Get(ReadEnv(Reverted(s)), name) == Get(ReadEnv(s), name)
    ensures ENV_KEY in Reverted(s) ==>
              Reverted(s)[ENV_KEY] == Obj(ReadEnv(Reverted(s))) && ReadEnv(Reverted(s)) != map[]
  {
    assert BaseUrlOwnership(s).Ours?;
    var rest := s - {PRIOR_KEY, ENV_KEY};
    var env := WithRestoredField(ReadEnv(s) - {BASE_URL_KEY}, BASE_URL_KEY, OrUnset(before.baseUrl));
    var base := WithRestoredField(rest - {API_KEY_HELPER_KEY}, API_KEY_HELPER_KEY, OrUnset(before.helper));
    assert Reverted(s) == WithEnv(base, env);
    assert ReadEnv(WithEnv(base, env)) == env;
  }

  /**
   Once a first apply has written, any applies from any binary and any edits to other keys,
   then one revert, leave the two fields as they were before the first apply, and every other
   setting and variable as the user last had it.
   */
  lemma DisableRestoresExactly(original: Record, first: string, steps: seq<Step>)
    requires PRIOR_KEY !in original && ApplyWrites(original, first)
    requires Legal(Applied(original, first), steps)
    ensures var last := After(Applied(original, first), steps);
            && OwnedFields(Reverted(last)) == OwnedFields(original)
            && PRIOR_KEY !in Reverted(last)
            && (forall key :: Other(key) ==> Get(Reverted(last), key) == Get(last, key))
            && (forall name :: name != BASE_URL_KEY ==> Get(ReadEnv(Reverted(last)), name) == Get(ReadEnv(last), name))
  {
    FirstApplyHolds(original, first);
    HoldsThroughout(Applied(original, first), steps, OwnedFields(original));
    RevertRestores(After(Applied(original, first), steps), OwnedFields(original));
  }

  /** An environment that survives the round trip: none at all, or a record with something in it. */
  predicate EnvIsProper(s: Record) {
    ENV_KEY in s ==> s[ENV_KEY].Obj? && s[ENV_KEY].fields != map[]
  }

  /** Apply then revert puts back every `env` entry and every other key. */
  lemma ApplyRevertKeeps(s: Record, command: string)
    requires PRIOR_KEY !in s && ApplyWrites(s, command)
    ensures ReadEnv(Reverted(Applied(s, command))) == ReadEnv(s)
    ensures forall key :: key != ENV_KEY ==> Get(Reverted(Applied(s, command)), key) == Get(s, key)
  {
    var t := Reverted(Applied(s, command));
    ApplyTouchesOnlyOwned(s, command);
    FirstApplyHolds(s, command);
    RevertRestores(Applied(s, command), OwnedFields(s));
    forall name
      ensures Get(ReadEnv(t), name) == Get(ReadEnv(s), name)
    {
      assert name == BASE_URL_KEY ==> Get(ReadEnv(t), name) == BaseUrl(t) == BaseUrl(s);
    }
    SameRecord(ReadEnv(t), ReadEnv(s));
  }

  /** Apply then revert is the identity exactly when there was no empty or malformed `env` to normalise. */
  lemma ApplyRevertIsIdentityExactlyWhen(s: Record, command: string)
    requires PRIOR_KEY !in s && ApplyWrites(s, command)
    ensures Reverted(Applied(s, command)) == s <==> EnvIsProper(s)
  {
    var t := Reverted(Applied(s, command));
    ApplyRevertKeeps(s, command);
    FirstApplyHolds(s, command);
    RevertRestores(Applied(s, command), OwnedFields(s));
    if EnvIsProper(s) {
      forall key
        ensures Get(t, key) == Get(s, key)
      {
        if key == ENV_KEY && ENV_KEY in s {
          assert ReadEnv(t) != map[];
        }
      }
      SameRecord(t, s);
    }
  }

  lemma SameRecord(a: Record, b: Record)
    requires forall key :: Get(a, key) == Get(b, key)
    ensures a == b
  {
    forall key
      ensures key in a <==> key in b
      ensures key in a ==> a[key] == b[key]
    {
      assert Get(a, key) == Get(b, key);
    }
  }

  lemma MergedFields(s: Record, command: string)
    ensures BaseUrl(Merged(s, command)) == Some(PROXY_BASE_URL)
    ensures Get(Merged(s, command), API_KEY_HELPER_KEY) == Some(Str(command))
    ensures Get(Merged(s, command), PRIOR_KEY) == Some(PriorOf(s))
  {
  }

  lemma OursWhen(t: Record, helper: Json)
    requires BaseUrl(t) == Some(PROXY_BASE_URL) && Get(t, API_KEY_HELPER_KEY) == Some(helper) && OwnedHelper(helper)
    ensures BaseUrlOwnership(t).Ours? && HelperOwnership(t).Ours?
  {
  }

  /** After an apply that wrote, both fields are ours, when the binary is one we recognise. */
  lemma AppliedIsOurs(s: Record, command: string)
    requires ApplyWrites(s, command) && OwnedHelper(Str(command))
    ensures BaseUrlOwnership(Applied(s, command)).Ours? && HelperOwnership(Applied(s, command)).Ours?
  {
    MergedFields(s, command);
    OursWhen(Merged(s, command), Str(command));
  }

  lemma OwnCommandOwnedExactlyWhen(command: string, execPath: string, mainScript: Option<string>)
    requires HelperCommand.QuoteFree(execPath, mainScript)
    requires command == HelperCommand.Command(Some(HELPER_LABEL), execPath, mainScript)
    ensures OwnedHelper(Str(command)) <==> HelperCommand.KnownLauncher(execPath)
  {
    HelperCommand.ClientLabelReadsBack();
    HelperCommand.PrintedIsOwnedExactlyWhen(Some(HELPER_LABEL), execPath, mainScript);
  }

  /**
   A binary recognises what it applied itself, so that another of our binaries can heal it and a
   revert can remove it without a snapshot, exactly when its launcher is one we know.
   */
  lemma OwnApplyIsRecognisedExactlyWhen(s: Record, command: string, execPath: string, mainScript: Option<string>)
    requires HelperCommand.QuoteFree(execPath, mainScript)
    requires command == HelperCommand.Command(Some(HELPER_LABEL), execPath, mainScript)
    requires ApplyWrites(s, command)
    ensures HelperOwnership(Applied(s, command)).Ours? <==> HelperCommand.KnownLauncher(execPath)
  {
    OwnCommandOwnedExactlyWhen(command, execPath, mainScript);
    MergedFields(s, command);
    if OwnedHelper(Str(command)) {
      AppliedIsOurs(s, command);
    }
  }

  lemma SettledWhen(t: Record, command: string)
    requires BaseUrl(t) == Some(PROXY_BASE_URL) && Get(t, API_KEY_HELPER_KEY) == Some(Str(command))
    ensures !ApplyWrites(t, command)
  {
  }

  /** Applying again from the same binary writes nothing. */
  lemma ApplyIsIdempotent(s: Record, command: string)
    ensures !ApplyWrites(Applied(s, command), command)
  {
    if ApplyWrites(s, command) {
      MergedFields(s, command);
      SettledWhen(Merged(s, command), command);
    }
  }

  /** A recognised command left by another binary is healed to this one's, and the snapshot survives. */
  lemma OtherBinaryHeals(s: Record, theirs: string, ours: string)
    requires ApplyWrites(s, theirs) && OwnedHelper(Str(theirs)) && theirs != ours
    ensures Get(Applied(Applied(s, theirs), ours), API_KEY_HELPER_KEY) == Some(Str(ours))
    ensures Get(Applied(Applied(s, theirs), ours), PRIOR_KEY) == Get(Applied(s, theirs), PRIOR_KEY)
  {
    MergedFields(s, theirs);
    OursWhen(Merged(s, theirs), Str(theirs));
    HealsStale(Merged(s, theirs), ours);
  }

  lemma HealsStale(t: Record, ours: string)
    requires BaseUrlOwnership(t).Ours? && HelperOwnership(t).Ours?
    requires t[API_KEY_HELPER_KEY] != Str(ours) && PRIOR_KEY in t
    ensures Applied(t, ours)[API_KEY_HELPER_KEY] == Str(ours) && Get(Applied(t, ours), PRIOR_KEY) == Get(t, PRIOR_KEY)
  {
  }

  // ----- settings without a snapshot -----

  function Unless(v: Option<Json>, ours: bool): Option<Json> {
    if ours then None else v
  }

  /**
   With no snapshot to go by, reverting removes each of the two fields just when it is ours, and leaves
   every other setting and variable.
   */
  lemma RevertWithoutSnapshot(s: Record)
    requires PRIOR_KEY !in s || !s[PRIOR_KEY].Obj?
    requires RevertWrites(s)
    ensures BaseUrl(Reverted(s)) == Unless(BaseUrl(s), BaseUrl(s) == Some(Str("http://127.0.0.1:4141")))
    ensures Get(Reverted(s), API_KEY_HELPER_KEY) ==
            Unless(Get(s, API_KEY_HELPER_KEY), API_KEY_HELPER_KEY in s && OwnedHelper(s[API_KEY_HELPER_KEY]))
    ensures PRIOR_KEY !in Reverted(s)
    ensures forall key :: Other(key) ==> Get(Reverted(s), key) == Get(s, key)
    ensures forall name :: name != BASE_URL_KEY ==> Get(ReadEnv(Reverted(s)), name) == Get(ReadEnv(s), name)
  {
    hide OwnedHelper;
    var rest, env := s - {PRIOR_KEY, ENV_KEY}, ReadEnv(s);
    var base := if API_KEY_HELPER_KEY in s && OwnedHelper(s[API_KEY_HELPER_KEY])
                then rest - {API_KEY_HELPER_KEY} else rest;
    var left := if Get(env, BASE_URL_KEY) == Some(PROXY_BASE_URL) then env - {BASE_URL_KEY} else env;
    assert Reverted(s) == WithEnv(base, left);
    assert ReadEnv(WithEnv(base, left)) == left;
  }

  /** Reverting does anything exactly when one of the two fields is ours. */
  lemma RevertWritesExactlyWhen(s: Record)
    ensures RevertWrites(s) <==>
            || BaseUrl(s) == Some(Str("http://127.0.0.1:4141"))
            || (API_KEY_HELPER_KEY in s && OwnedHelper(s[API_KEY_HELPER_KEY]))
  {
  }

  /** Applying writes exactly when neither field is anyone else's and not both are as it would write them. */
  lemma ApplyWritesExactlyWhen(s: Record, command: string)
    ensures ApplyWrites(s, command) <==>
            && (BaseUrl(s).None? || BaseUrl(s) == Some(Str("http://127.0.0.1:4141")))
            && (API_KEY_HELPER_KEY !in s || OwnedHelper(s[API_KEY_HELPER_KEY]))
            && !(BaseUrl(s).Some? && Get(s, API_KEY_HELPER_KEY) == Some(Str(command)))
  {
  }

  // ----- when an edit of an owned field survives -----

  /** The settings with one owned field set or removed by hand. */
  function WithHelper(settings: Record, helper: Option<Json>): Record {
    if helper.Some? then settings[API_KEY_HELPER_KEY := helper.value] else settings - {API_KEY_HELPER_KEY}
  }

  function WithBaseUrl(settings: Record, baseUrl: Option<Json>): Record {
    settings[ENV_KEY := Obj(if baseUrl.Some? then ReadEnv(settings)[BASE_URL_KEY := baseUrl.value]
                            else ReadEnv(settings) - {BASE_URL_KEY})]
  }

  lemma EditedFields(t: Record, edit: Owned)
    ensures var e := WithHelper(WithBaseUrl(t, edit.baseUrl), edit.helper);
            OwnedFields(e) == edit && Get(e, PRIOR_KEY) == Get(t, PRIOR_KEY)
  {
    var u := WithBaseUrl(t, edit.baseUrl);
    assert ReadEnv(WithHelper(u, edit.helper)) == ReadEnv(u);
  }

  /** The snapshot says what stood in the two fields before the first apply. */
  predicate Remembers(settings: Record, before: Owned) {
    Get(settings, PRIOR_KEY) ==
      Some(Obj(map[BASE_URL_KEY := OrUnset(before.baseUrl), API_KEY_HELPER_KEY := OrUnset(before.helper)]))
  }

  /** As soon as one field is still ours, reverting puts both back, whatever the user made of the other. */
  lemma RevertPutsBothBack(e: Record, before: Owned)
    requires Remembers(e, before) && NotSentinel(before) && RevertWrites(e)
    ensures OwnedFields(Reverted(e)) == before
  {
    var rest := e - {PRIOR_KEY, ENV_KEY};
    var env := WithRestoredField(ReadEnv(e) - {BASE_URL_KEY}, BASE_URL_KEY, OrUnset(before.baseUrl));
    var base := WithRestoredField(rest - {API_KEY_HELPER_KEY}, API_KEY_HELPER_KEY, OrUnset(before.helper));
    assert Stripped(e) == WithEnv(base, env);
    assert ReadEnv(WithEnv(base, env)) == env;
  }

  /**
   An edit of either field, or both, survives the revert exactly when neither field is ours any
   more, so that nothing is reverted, or the edit is what stood there before the first apply.
   */
  lemma EditSurvivesExactlyWhen(s: Record, command: string, edit: Owned)
    requires PRIOR_KEY !in s && ApplyWrites(s, command)
    ensures var e := WithHelper(WithBaseUrl(Applied(s, command), edit.baseUrl), edit.helper);
            var ours := BaseUrlOwnership(e).Ours? || HelperOwnership(e).Ours?;
            && OwnedFields(e) == edit
            && (BaseUrl(Reverted(e)) == edit.baseUrl <==> !ours || edit.baseUrl == BaseUrl(s))
            && (Get(Reverted(e), API_KEY_HELPER_KEY) == edit.helper <==>
                  !ours || edit.helper == Get(s, API_KEY_HELPER_KEY))
  {
    var t := Applied(s, command);
    var e := WithHelper(WithBaseUrl(t, edit.baseUrl), edit.helper);
    FirstApplyHolds(s, command);
    EditedFields(t, edit);
    SurvivesByOwnership(e, OwnedFields(s));
  }

  lemma SurvivesByOwnership(e: Record, before: Owned)
    requires Remembers(e, before) && NotSentinel(before)
    ensures BaseUrl(Reverted(e)) == BaseUrl(e) <==> !RevertWrites(e) || BaseUrl(e) == before.baseUrl
    ensures Get(Reverted(e), API_KEY_HELPER_KEY) == Get(e, API_KEY_HELPER_KEY) <==>
            !RevertWrites(e) || Get(e, API_KEY_HELPER_KEY) == before.helper
  {
    if RevertWrites(e) {
      RevertPutsBothBack(e, before);
    } else {
      ForeignIsLeftAlone(e, "");
    }
  }

  /** In particular, a helper chosen while the base URL is still ours is lost unless it is the old one. */
  lemma EditedHelperIsLost(s: Record, command: string, mine: Json)
    requires PRIOR_KEY !in s && ApplyWrites(s, command)
    ensures var e := WithHelper(WithBaseUrl(Applied(s, command), Some(PROXY_BASE_URL)), Some(mine));
            Get(Reverted(e), API_KEY_HELPER_KEY) == Some(mine) <==> Get(s, API_KEY_HELPER_KEY) == Some(mine)
  {
    var edit := Owned(Some(PROXY_BASE_URL), Some(mine));
    var e := WithHelper(WithBaseUrl(Applied(s, command), edit.baseUrl), edit.helper);
    EditSurvivesExactlyWhen(s, command, edit);
    assert BaseUrl(e) == Some(PROXY_BASE_URL);
  }

  /** A value that was never ours is never written or removed. */
  lemma ForeignIsLeftAlone(s: Record, command: string)
    ensures BaseUrlOwnership(s).Foreign? || HelperOwnership(s).Foreign? ==> Applied(s, command) == s
    ensures !BaseUrlOwnership(s).Ours? && !HelperOwnership(s).Ours? ==> Reverted(s) == s
    ensures PRIOR_KEY !in s && BaseUrlOwnership(s).Foreign? ==> BaseUrl(Reverted(s)) == BaseUrl(s)
    ensures PRIOR_KEY !in s && HelperOwnership(s).Foreign? ==>
              Get(Reverted(s), API_KEY_HELPER_KEY) == Get(s, API_KEY_HELPER_KEY)
  {
  }
}
