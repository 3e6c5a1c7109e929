/** The integrityadvocate availability condition (classes/condition.php): a restriction
    that lets a user into an activity or section according to the proctoring review
    status of another course module. The record holds a course-module id `cmid` and an
    expected status (1 = valid, 0 = invalid). The remote review service, the lookup of
    the sibling block, Moodle's language strings and its per-request cache store are
    inputs to the model. */
module AvailabilityCondition {
  import opened Common
  import opened Moodle

  const STATUS_INVALID: int := 0
  const STATUS_VALID: int := 1

  // ---------------------------------------------------------------------------
  // The stored record and its JSON form
  // ---------------------------------------------------------------------------

  /** One property of the JSON-decoded structure: missing (or null), a number (its
      value after the `(int)` cast), or something that is not a number. */
  datatype Field = Absent | Number(n: int) | NotNumber

  /** The decoded structure handed to the constructor (its `type` is not read). */
  datatype Structure = Structure(cm: Field, e: Field)

  /** The two fields of a condition. */
  datatype Params = Params(cmid: int, expectedstatus: int)

  /** The object `save` and `get_json` produce: `{type, cm, e}`. */
  datatype Json = Json(conditionType: string, cm: int, e: int)

  const CONDITION_TYPE: string := "integrityadvocate"
  const MISSING_CM: string := "Missing or invalid value in cm for completion condition"
  const MISSING_E: string := "Missing or invalid value in e for completion condition"

  predicate IsStatus(e: int)
  {
    e == STATUS_VALID || e == STATUS_INVALID
  }

  /** What the constructor accepts: `cm` present and numeric, then `e` present and one
      of the two statuses; anything else is a coding exception, `cm` checked first. */
  function Decode(s: Structure): (r: Result<Params, string>)
    ensures r.Ok? <==> s.cm.Number? && s.e.Number? && IsStatus(s.e.n)
    ensures r.Ok? ==> r.value == Params(s.cm.n, s.e.n)
    ensures !s.cm.Number? ==> r == Err(MISSING_CM)
    ensures s.cm.Number? && r.Err? ==> r == Err(MISSING_E)
  {
    if !s.cm.Number? then Err(MISSING_CM)
    else if s.e.Number? && IsStatus(s.e.n) then Ok(Params(s.cm.n, s.e.n))
    else Err(MISSING_E)
  }

  /** The shape shared by `save` and `get_json`. */
  function Encode(p: Params): Json
  {
    Json(CONDITION_TYPE, p.cmid, p.expectedstatus)
  }

  /** `get_json($cmid, $expectedstatus)`. */
  function GetJson(cmid: int, expectedstatus: int): (r: Json)
    ensures r.conditionType == CONDITION_TYPE
    ensures Decode(AsStructure(r)).Ok? <==> IsStatus(expectedstatus)
    ensures Decode(AsStructure(r)).Ok? ==> Decode(AsStructure(r)).value == Params(cmid, expectedstatus)
  {
    Encode(Params(cmid, expectedstatus))
  }

  /** Reading a saved object back: both properties are present and numeric. */
  function AsStructure(j: Json): Structure
  {
    Structure(Number(j.cm), Number(j.e))
  }

  /** Constructing from `get_json(cm, e)` and saving again gives back the same object. */
  lemma GetJsonRoundTrip(cmid: int, e: int)
    requires IsStatus(e)
    ensures Decode(AsStructure(GetJson(cmid, e))) == Ok(Params(cmid, e))
    ensures Encode(Decode(AsStructure(GetJson(cmid, e))).value) == Json(CONDITION_TYPE, cmid, e)
  {
  }

  /** Every structure the constructor accepts is exactly what `save` writes back. */
  lemma SaveRoundTrip(s: Structure)
    requires Decode(s).Ok?
    ensures AsStructure(Encode(Decode(s).value)) == s
    ensures Encode(Decode(s).value).conditionType == CONDITION_TYPE
  {
  }

  // ---------------------------------------------------------------------------
  // The access decision of is_available
  // ---------------------------------------------------------------------------

  /** The `ia_participant_data` of one remote result. */
  datatype ParticipantData = ParticipantData(reviewStatus: string)

  /** What the sibling block's remote lookup returns: an error string, or an array of results. */
  datatype IaResults = ApiError(message: string) | Records(records: seq<ParticipantData>)

  /** Everything outside the plugin that one request sees: whether the sibling block is
      installed, the block's INTEGRITYADVOCATE_API_STATUS_VALID string, the remote lookup
      by (course id, user id, module context id), and `get_string` of this plugin's
      language file by key and optional `$a`. */
  datatype World = World(
    blockInstalled: bool,
    apiStatusValid: string,
    remote: (int, int, int) -> IaResults,
    getString: (string, Option<string>) -> string)

  /** The item being checked (`$info`): its context level and its course's modinfo. */
  datatype Info = Info(contextLevel: int, modinfo: Modinfo)

  /** The comparison of one review status with the expected status, before `not`. */
  function Expectation(expectedstatus: int, reviewStatus: string, apiStatusValid: string): Result<bool, string>
  {
    if expectedstatus == STATUS_VALID then Ok(reviewStatus == apiStatusValid)
    else if expectedstatus == STATUS_INVALID then Ok(StartsWithIgnoringCase(reviewStatus, "invalid"))
    else Err("Invalid $this->expectedstatus=" + IntToString(expectedstatus))
  }

  /** The decision of is_available as a chain of overrides: a missing block allows; a
      non-module context raises; a missing module, a remote error and an empty result
      deny; otherwise the comparison decides, inverted by `not`. */
  function Decide(world: World, info: Info, userid: int, p: Params, not: bool): (r: Result<bool, string>)
    ensures !world.blockInstalled ==> r == Ok(true)
    ensures r.Err? ==> world.blockInstalled && (info.contextLevel != CONTEXT_MODULE || !IsStatus(p.expectedstatus))
    ensures (world.blockInstalled && info.contextLevel == CONTEXT_MODULE && FindCm(info.modinfo.cms, p.cmid).None?)
            ==> r == Ok(false)
  {
    if !world.blockInstalled then Ok(true)
    else if info.contextLevel != CONTEXT_MODULE then
      Err("Called with invalid contextlevel=" + IntToString(info.contextLevel))
    else match FindCm(info.modinfo.cms, p.cmid)
      case None => Ok(false)
      case Some(othercm) =>
        match world.remote(info.modinfo.courseId, userid, othercm.contextId)
        case ApiError(_) => Ok(false)
        case Records(rs) =>
          if |rs| == 0 then Ok(false)
          else match Expectation(p.expectedstatus, rs[0].reviewStatus, world.apiStatusValid)
            case Err(e) => Err(e)
            case Ok(allow) => Ok(allow != not)
  }

  /** True when one of the overrides (not the comparison) decides. */
  predicate Overridden(world: World, info: Info, userid: int, cmid: int)
  {
    || !world.blockInstalled
    || info.contextLevel != CONTEXT_MODULE
    || FindCm(info.modinfo.cms, cmid).None?
    || var rs := world.remote(info.modinfo.courseId, userid, FindCm(info.modinfo.cms, cmid).value.contextId);
       rs.ApiError? || |rs.records| == 0
  }

  /** Without the sibling block every user is let in, whatever `not` says. */
  lemma AllowedWithoutBlock(world: World, info: Info, userid: int, p: Params, not: bool)
    requires !world.blockInstalled
    ensures Decide(world, info, userid, p, not) == Ok(true)
  {
  }

  /** Outside a module context the decision raises. */
  lemma RaisesOutsideModuleContext(world: World, info: Info, userid: int, p: Params, not: bool)
    requires world.blockInstalled && info.contextLevel != CONTEXT_MODULE
    ensures Decide(world, info, userid, p, not).Err?
  {
  }

  /** A module missing from the course, a remote error string and an empty remote result
      each deny access, whatever `not` says. */
  lemma DeniedWhenUnresolved(world: World, info: Info, userid: int, p: Params, not: bool)
    requires world.blockInstalled && info.contextLevel == CONTEXT_MODULE
    requires Overridden(world, info, userid, p.cmid)
    ensures Decide(world, info, userid, p, not) == Ok(false)
  {
  }

  /** Otherwise `not` inverts exactly the comparison: for expected = valid it is equality
      with the API's valid string, for expected = invalid a case-insensitive "invalid"
      prefix, and any other expected status raises. */
  lemma NotInvertsComparison(world: World, info: Info, userid: int, p: Params, not: bool)
    requires !Overridden(world, info, userid, p.cmid)
    ensures var othercm := FindCm(info.modinfo.cms, p.cmid).value;
            var status := world.remote(info.modinfo.courseId, userid, othercm.contextId).records[0].reviewStatus;
            && (p.expectedstatus == STATUS_VALID ==>
                  Decide(world, info, userid, p, not) == Ok((status == world.apiStatusValid) != not))
            && (p.expectedstatus == STATUS_INVALID ==>
                  Decide(world, info, userid, p, not) == Ok(StartsWithIgnoringCase(status, "invalid") != not))
            && (!IsStatus(p.expectedstatus) ==> Decide(world, info, userid, p, not).Err?)
  {
  }

  /** Flipping `not` flips an answer the comparison gave and keeps an overridden one. */
  lemma NotFlipsOnlyComparison(world: World, info: Info, userid: int, p: Params)
    requires Decide(world, info, userid, p, false).Ok?
    ensures Decide(world, info, userid, p, true).Ok?
    ensures Overridden(world, info, userid, p.cmid) ==>
              Decide(world, info, userid, p, true) == Decide(world, info, userid, p, false)
    ensures !Overridden(world, info, userid, p.cmid) ==>
              Decide(world, info, userid, p, true).value == !Decide(world, info, userid, p, false).value
  {
  }

  /** A status cannot meet both expectations unless the API's valid string itself begins
      with "invalid": a positive review never also reads as invalid. */
  lemma ExpectationsExclusive(status: string, apiStatusValid: string)
    requires !StartsWithIgnoringCase(apiStatusValid, "invalid")
    ensures !(Expectation(STATUS_VALID, status, apiStatusValid) == Ok(true)
              && Expectation(STATUS_INVALID, status, apiStatusValid) == Ok(true))
  {
  }

  // ---------------------------------------------------------------------------
  // get_description and get_debug_string
  // ---------------------------------------------------------------------------

  /** The language-string key get_description picks; any status other than invalid is
      treated as valid. */
  function DescriptionStringKey(expectedstatus: int, not: bool): string
  {
    if expectedstatus == STATUS_INVALID then
      (if not then "requires_valid" else "requires_invalid")
    else
      (if not then "requires_invalid" else "requires_valid")
  }

  /** The key is "requires_valid" exactly when (expected is not invalid) XOR `not`. */
  lemma DescriptionKeyIsXor(expectedstatus: int, not: bool)
    ensures DescriptionStringKey(expectedstatus, not) == "requires_valid"
            <==> (expectedstatus != STATUS_INVALID) != not
    ensures DescriptionStringKey(expectedstatus, not) == "requires_invalid"
            <==> (expectedstatus != STATUS_INVALID) == not
  {
  }

  /** The name placed in the description: the placeholder that Moodle later replaces by
      the module's formatted name, or the 'missing' string. */
  function ModName(world: World, cms: seq<Cm>, cmid: int): string
  {
    match FindCm(cms, cmid)
    case None => world.getString("missing", None)
    case Some(cm) => "<AVAILABILITY_CMNAME_" + IntToString(cm.id) + "/>"
  }

  lemma ModNameNamesTheModule(world: World, cms: seq<Cm>, cmid: int)
    ensures (exists i :: 0 <= i < |cms| && cms[i].id == cmid) ==>
              ModName(world, cms, cmid) == "<AVAILABILITY_CMNAME_" + IntToString(cmid) + "/>"
    ensures (forall i :: 0 <= i < |cms| ==> cms[i].id != cmid) ==>
              ModName(world, cms, cmid) == world.getString("missing", None)
  {
  }

  /** The text get_description returns, when the cache does not answer. */
  function Describe(world: World, info: Info, p: Params, not: bool): (r: string)
    ensures ((p.expectedstatus != STATUS_INVALID) != not)
            ==> r == world.getString("requires_valid", Some(ModName(world, info.modinfo.cms, p.cmid)))
    ensures ((p.expectedstatus != STATUS_INVALID) == not)
            ==> r == world.getString("requires_invalid", Some(ModName(world, info.modinfo.cms, p.cmid)))
  {
    world.getString(DescriptionStringKey(p.expectedstatus, not), Some(ModName(world, info.modinfo.cms, p.cmid)))
  }

  /** get_debug_string: "cm<id> valid" or "cm<id> invalid"; any other status raises. */
  function DebugString(p: Params): (r: Result<string, string>)
    ensures r.Ok? <==> IsStatus(p.expectedstatus)
  {
    if p.expectedstatus == STATUS_VALID then Ok("cm" + IntToString(p.cmid) + " valid")
    else if p.expectedstatus == STATUS_INVALID then Ok("cm" + IntToString(p.cmid) + " invalid")
    else Err("Unexpected expectedstatus value")
  }

  /** A condition whose status is 0 or 1, as construction guarantees, never reaches a
      `default:` branch: its debug string exists, and is_available raises only for a
      context that is not a module context. */
  lemma ValidStatusNeverRaises(world: World, info: Info, userid: int, p: Params, not: bool)
    requires IsStatus(p.expectedstatus)
    ensures DebugString(p).Ok?
    ensures Decide(world, info, userid, p, not).Err? ==> world.blockInstalled && info.contextLevel != CONTEXT_MODULE
  {
  }

  /** The sixth character from the end tells " valid" from " invalid". */
  lemma StatusMarker(id: string)
    ensures var v := "cm" + id + " valid"; v[|v| - 6] == ' '
    ensures var w := "cm" + id + " invalid"; w[|w| - 6] == 'n'
  {
  }

  /** The debug string tells conditions apart: equal strings mean equal fields. */
  lemma DebugStringDistinguishes(p: Params, q: Params)
    requires DebugString(p).Ok? && DebugString(p) == DebugString(q)
    ensures p == q
  {
    var s := DebugString(p).value;
    var a, b := IntToString(p.cmid), IntToString(q.cmid);
    StatusMarker(a);
    StatusMarker(b);
    assert p.expectedstatus == q.expectedstatus;
    var tail := if p.expectedstatus == STATUS_VALID then " valid" else " invalid";
    assert s == "cm" + a + tail == "cm" + b + tail;
    assert a == s[2..|s| - |tail|] == b;
    IntToStringInjective(p.cmid, q.cmid);
  }

  // ---------------------------------------------------------------------------
  // The per-request cache
  // ---------------------------------------------------------------------------

  /** A key of the per-request cache, modelled by the data it hashes (the sha1 of
      `json_encode` is taken to be injective). It names the method, the condition's own
      fields, and the arguments of the call. */
  datatype CacheKey =
    | AvailableKey(p: Params, not: bool, info: Info, grabthelot: bool, userid: int)
    | DescriptionKey(p: Params, full: bool, not: bool, info: Info)

  /** `serialize($b)` of a boolean. */
  function Serialize(b: bool): string
  {
    if b then "b:1;" else "b:0;"
  }

  /** `unserialize($s)` of a stored string: a serialized boolean, anything else false. */
  function Unserialize(s: string): bool
  {
    s == "b:1;"
  }

  /** PHP truthiness of a string: everything but "" and "0". */
  predicate Truthy(s: string)
  {
    s != "" && s != "0"
  }

  /** Serializing makes even `false` a truthy string, so a stored `false` is found again. */
  lemma SerializeRoundTrip(b: bool)
    ensures Truthy(Serialize(b))
    ensures Unserialize(Serialize(b)) == b
  {
  }

  /** `if ($cachedvalue = $cache->get($key))`: the stored value, if there is a truthy one. */
  function Recall<K>(entries: map<K, string>, k: K): (v: Option<string>)
    ensures v.Some? ==> k in entries && v.value == entries[k] && Truthy(v.value)
    ensures v.None? ==> k !in entries || !Truthy(entries[k])
  {
    if k in entries && Truthy(entries[k]) then Some(entries[k]) else None
  }

  /** The cache answers as the computation would: every truthy entry is the value its key
      would compute in this request. */
  ghost predicate Agrees(entries: map<CacheKey, string>, world: World)
  {
    forall k | k in entries && Truthy(entries[k]) ::
      match k
      case AvailableKey(p, not, info, _, userid) => Decide(world, info, userid, p, not) == Ok(Unserialize(entries[k]))
      case DescriptionKey(p, _, not, info) => Describe(world, info, p, not) == entries[k]
  }

  /** Moodle's `cache::make(..., 'perrequest')` store. */
  class PerRequestCache {
    var entries: map<CacheKey, string>

    constructor ()
      ensures entries == map[]
    {
      entries := map[];
    }

    /** `$cache->get($key)`: the stored string, or None for PHP's `false`. */
    method Get(k: CacheKey) returns (v: Option<string>)
      ensures v.Some? <==> k in entries
      ensures v.Some? ==> v.value == entries[k]
    {
      v := if k in entries then Some(entries[k]) else None;
    }

    /** `$cache->set($key, $value)`, taken to succeed. */
    method Set(k: CacheKey, v: string)
      modifies this
      ensures entries == old(entries)[k := v]
    {
      entries := entries[k := v];
    }
  }

  // ---------------------------------------------------------------------------
  // The condition object
  // ---------------------------------------------------------------------------

  /** The restore logger: the warnings it was given. */
  class RestoreLogger {
    var warnings: seq<string>

    constructor ()
      ensures warnings == []
    {
      warnings := [];
    }

    method Process(message: string)
      modifies this
      ensures warnings == old(warnings) + [message]
    {
      warnings := warnings + [message];
    }
  }

  function RestoreWarning(name: string): string
  {
    "Restored item (" + name + ") has availability condition on module that was not restored"
  }

  /** `$DB->record_exists('course_modules', ['id' => $cmid, 'course' => $courseid])`, with
      the course_modules table given as a map from module id to course id. */
  predicate InCourse(courseModules: map<int, int>, cmid: int, courseid: int)
  {
    cmid in courseModules && courseModules[cmid] == courseid
  }

  class Condition {
    var cmid: int
    var expectedstatus: int

    ghost predicate Valid()
      reads this
    {
      IsStatus(expectedstatus)
    }

    function Fields(): Params
      reads this
    {
      Params(cmid, expectedstatus)
    }

    constructor (p: Params)
      requires IsStatus(p.expectedstatus)
      ensures Valid() && Fields() == p
    {
      cmid := p.cmid;
      expectedstatus := p.expectedstatus;
    }

    /** `new condition($structure)`: reads `cm` and then `e`, raising on either. */
    static method FromStructure(s: Structure) returns (r: Result<Condition, string>)
      ensures Decode(s).Err? ==> r == Err(Decode(s).error)
      ensures Decode(s).Ok? ==> r.Ok? && fresh(r.value) && r.value.Valid() && r.value.Fields() == Decode(s).value
    {
      if !s.cm.Number? {
        return Err(MISSING_CM);
      }
      var cmid := s.cm.n;
      if !(s.e.Number? && IsStatus(s.e.n)) {
        return Err(MISSING_E);
      }
      var c := new Condition(Params(cmid, s.e.n));
      return Ok(c);
    }

    /** `save()`. */
    function Save(): (r: Json)
      reads this
      ensures r.conditionType == CONDITION_TYPE
      ensures Valid() ==> Decode(AsStructure(r)) == Ok(Fields())
    {
      Encode(Fields())
    }

    /** `get_debug_string()`; a valid condition never reaches the default branch. */
    function GetDebugString(): (r: Result<string, string>)
      reads this
      ensures Valid() ==> r.Ok?
    {
      DebugString(Fields())
    }

    /** `is_available($not, $info, $grabthelot, $userid)`: answer from the per-request
        cache when it holds a truthy value for this call, otherwise run the override
        chain, store the answer and return it. Exceptions leave the cache alone. */
    method IsAvailable(not: bool, info: Info, grabthelot: bool, userid: int, world: World, cache: PerRequestCache)
      returns (r: Result<bool, string>)
      requires Agrees(cache.entries, world)
      modifies cache
      ensures r == Decide(world, info, userid, Fields(), not)
      ensures Agrees(cache.entries, world)
      ensures var k := AvailableKey(Fields(), not, info, grabthelot, userid);
              cache.entries == if Recall(old(cache.entries), k).Some? || r.Err? then old(cache.entries)
                               else old(cache.entries)[k := Serialize(r.value)]
    {
      var k := AvailableKey(Fields(), not, info, grabthelot, userid);
      var cachedvalue := cache.Get(k);
      if cachedvalue.Some? && Truthy(cachedvalue.value) {
        return Ok(Unserialize(cachedvalue.value));
      }

      // Non-None when the answer is forced to true or false.
      var allowoverridden: Option<bool> := None;
      if !world.blockInstalled {
        allowoverridden := Some(true);
      }

      var othercm: Option<Cm> := None;
      if allowoverridden.None? {
        if info.contextLevel != CONTEXT_MODULE {
          return Err("Called with invalid contextlevel=" + IntToString(info.contextLevel));
        }
        othercm := FindCm(info.modinfo.cms, cmid);
        if othercm.None? {
          allowoverridden := Some(false);
        }
      }

      var useriaresults: Option<IaResults> := None;
      if allowoverridden.None? {
        useriaresults := Some(world.remote(info.modinfo.courseId, userid, othercm.value.contextId));
        if useriaresults.value.ApiError? {
          allowoverridden := Some(false);
        }
      }

      if allowoverridden.None? && useriaresults.value.Records? && |useriaresults.value.records| == 0 {
        allowoverridden := Some(false);
      }

      var allow := false;
      if allowoverridden.None? {
        var status := useriaresults.value.records[0].reviewStatus;
        if expectedstatus == STATUS_VALID {
          allow := status == world.apiStatusValid;
        } else if expectedstatus == STATUS_INVALID {
          allow := StartsWithIgnoringCase(status, "invalid");
        } else {
          return Err("Invalid $this->expectedstatus=" + IntToString(expectedstatus));
        }
      }

      if allowoverridden.None? && not {
        allow := !allow;
      }
      if allowoverridden.Some? {
        allow := allowoverridden.value;
      }

      SerializeRoundTrip(allow);
      cache.Set(k, Serialize(allow));
      r := Ok(allow);
    }

    /** `get_description($full, $not, $info)`: the cached text if there is a truthy one,
        otherwise the language string for the chosen key and module name, stored. */
    method GetDescription(full: bool, not: bool, info: Info, world: World, cache: PerRequestCache)
      returns (r: string)
      requires Agrees(cache.entries, world)
      modifies cache
      ensures r == Describe(world, info, Fields(), not)
      ensures Agrees(cache.entries, world)
      ensures var k := DescriptionKey(Fields(), full, not, info);
              cache.entries == if Recall(old(cache.entries), k).Some? then old(cache.entries)
                               else old(cache.entries)[k := r]
    {
      var k := DescriptionKey(Fields(), full, not, info);
      var cachedvalue := cache.Get(k);
      if cachedvalue.Some? && Truthy(cachedvalue.value) {
        return cachedvalue.value;
      }

      var modname: string;
      var found := FindCm(info.modinfo.cms, cmid);
      if found.None? {
        modname := world.getString("missing", None);
      } else {
        modname := "<AVAILABILITY_CMNAME_" + IntToString(found.value.id) + "/>";
      }

      var str: string;
      if expectedstatus == STATUS_INVALID {
        str := if not then "requires_valid" else "requires_invalid";
      } else {
        str := if not then "requires_invalid" else "requires_valid";
      }
      r := world.getString(str, Some(modname));
      cache.Set(k, r);
    }

    /** `update_after_restore($restoreid, $courseid, $logger, $name)`, with the backup
        mapping's `newitemid` (None when there is no mapping record) and the target
        database's course_modules table as inputs. */
    method UpdateAfterRestore(courseid: int, name: string, newitemid: Option<int>,
                              courseModules: map<int, int>, logger: RestoreLogger)
      returns (changed: bool)
      modifies this, logger
      ensures expectedstatus == old(expectedstatus)
      ensures old(Valid()) ==> Valid()
      ensures newitemid.Some? && newitemid.value != 0 ==>
                changed && cmid == newitemid.value && logger.warnings == old(logger.warnings)
      ensures (newitemid.None? || newitemid.value == 0) && InCourse(courseModules, old(cmid), courseid) ==>
                !changed && cmid == old(cmid) && logger.warnings == old(logger.warnings)
      ensures (newitemid.None? || newitemid.value == 0) && !InCourse(courseModules, old(cmid), courseid) ==>
                changed && cmid == 0 && logger.warnings == old(logger.warnings) + [RestoreWarning(name)]
      // Afterwards the condition names the restored module, a module of the target
      // course, or nothing (0).
      ensures cmid == 0 || newitemid == Some(cmid) || InCourse(courseModules, cmid, courseid)
    {
      if newitemid.None? || newitemid.value == 0 {
        if InCourse(courseModules, cmid, courseid) {
          return false;
        }
        cmid := 0;
        logger.Process(RestoreWarning(name));
      } else {
        cmid := newitemid.value;
      }
      return true;
    }

    /** `update_dependency_id($table, $oldid, $newid)`. */
    method UpdateDependencyId(table: string, oldid: int, newid: int) returns (changed: bool)
      modifies this
      ensures changed <==> table == "course_modules" && old(cmid) == oldid
      ensures cmid == if changed then newid else old(cmid)
      ensures expectedstatus == old(expectedstatus)
      ensures old(Valid()) ==> Valid()
    {
      if table == "course_modules" && cmid == oldid {
        cmid := newid;
        return true;
      } else {
        return false;
      }
    }
  }

  // ---------------------------------------------------------------------------
  // completion_value_used and its static map
  // ---------------------------------------------------------------------------

  /** The cmids named by the integrityadvocate conditions of one restriction tree. */
  function TreeCmids(availability: Option<seq<int>>): set<int>
  {
    match availability
    case None => {}
    case Some(ids) => Elements(ids)
  }

  /** The set of the elements of a sequence, collected front to back. */
  function Elements(ids: seq<int>): set<int>
  {
    if ids == [] then {} else Elements(ids[..|ids| - 1]) + {ids[|ids| - 1]}
  }

  lemma {:induction false} ElementsIff(ids: seq<int>, id: int)
    ensures id in Elements(ids) <==> id in ids
  {
    if ids != [] {
      var init := ids[..|ids| - 1];
      ElementsIff(init, id);
      assert ids == init + [ids[|ids| - 1]];
    }
  }

  function ModuleConditionCmids(cms: seq<Cm>): set<int>
  {
    if cms == [] then {} else ModuleConditionCmids(cms[..|cms| - 1]) + TreeCmids(cms[|cms| - 1].availability)
  }

  function SectionConditionCmids(sections: seq<Section>): set<int>
  {
    if sections == [] then {}
    else SectionConditionCmids(sections[..|sections| - 1]) + TreeCmids(sections[|sections| - 1].availability)
  }

  /** One more module adds the cmids of its own tree. */
  lemma ModuleConditionCmidsStep(cms: seq<Cm>, i: int)
    requires 0 <= i < |cms|
    ensures ModuleConditionCmids(cms[..i + 1]) == ModuleConditionCmids(cms[..i]) + TreeCmids(cms[i].availability)
  {
    assert cms[..i + 1][..i] == cms[..i];
  }

  /** One more section adds the cmids of its own tree. */
  lemma SectionConditionCmidsStep(sections: seq<Section>, i: int)
    requires 0 <= i < |sections|
    ensures SectionConditionCmids(sections[..i + 1])
            == SectionConditionCmids(sections[..i]) + TreeCmids(sections[i].availability)
  {
    assert sections[..i + 1][..i] == sections[..i];
  }

  /** The set completion_value_used builds for one course. */
  function ReferencedCmids(m: Modinfo): set<int>
  {
    ModuleConditionCmids(m.cms) + SectionConditionCmids(m.sections)
  }

  lemma {:induction false} ModuleConditionCmidsIff(cms: seq<Cm>, cmid: int)
    ensures cmid in ModuleConditionCmids(cms)
            <==> exists i :: 0 <= i < |cms| && cmid in TreeCmids(cms[i].availability)
  {
    if cms != [] {
      var init := cms[..|cms| - 1];
      ModuleConditionCmidsIff(init, cmid);
      if exists i :: 0 <= i < |cms| && cmid in TreeCmids(cms[i].availability) {
        var i :| 0 <= i < |cms| && cmid in TreeCmids(cms[i].availability);
        if i < |cms| - 1 {
          assert init[i] == cms[i];
        }
      }
    }
  }

  lemma {:induction false} SectionConditionCmidsIff(sections: seq<Section>, cmid: int)
    ensures cmid in SectionConditionCmids(sections)
            <==> exists i :: 0 <= i < |sections| && cmid in TreeCmids(sections[i].availability)
  {
    if sections != [] {
      var init := sections[..|sections| - 1];
      SectionConditionCmidsIff(init, cmid);
      if exists i :: 0 <= i < |sections| && cmid in TreeCmids(sections[i].availability) {
        var i :| 0 <= i < |sections| && cmid in TreeCmids(sections[i].availability);
        if i < |sections| - 1 {
          assert init[i] == sections[i];
        }
      }
    }
  }

  /** A module counts as used exactly when some integrityadvocate condition of a module
      or of a section of the course names it. */
  lemma ReferencedCmidsIff(m: Modinfo, cmid: int)
    ensures cmid in ReferencedCmids(m) <==>
            || (exists i :: 0 <= i < |m.cms| && m.cms[i].availability.Some? && cmid in m.cms[i].availability.value)
            || (exists i :: 0 <= i < |m.sections| && m.sections[i].availability.Some? && cmid in m.sections[i].availability.value)
  {
    ModuleConditionCmidsIff(m.cms, cmid);
    SectionConditionCmidsIff(m.sections, cmid);
    forall i | 0 <= i < |m.cms| && m.cms[i].availability.Some?
      ensures cmid in TreeCmids(m.cms[i].availability) <==> cmid in m.cms[i].availability.value
    {
      ElementsIff(m.cms[i].availability.value, cmid);
    }
    forall i | 0 <= i < |m.sections| && m.sections[i].availability.Some?
      ensures cmid in TreeCmids(m.sections[i].availability) <==> cmid in m.sections[i].availability.value
    {
      ElementsIff(m.sections[i].availability.value, cmid);
    }
  }

  /** The class-level static `$modsusedincondition`: course id to the set of cmids its
      integrityadvocate conditions name. */
  class ModsUsedInCondition {
    var courses: map<int, set<int>>

    constructor ()
      ensures courses == map[]
    {
      courses := map[];
    }

    /** `completion_value_used($course, $cmid)`: build the course's set on first use,
        walking the modules and then the sections, and answer from the stored set. */
    method CompletionValueUsed(course: Modinfo, cmid: int) returns (used: bool)
      modifies this
      ensures course.courseId in old(courses) ==> courses == old(courses)
      ensures course.courseId !in old(courses) ==>
                courses == old(courses)[course.courseId := ReferencedCmids(course)]
      ensures used <==> cmid in courses[course.courseId]
    {
      var cid := course.courseId;
      if cid !in courses {
        courses := courses[cid := {}];
        AddModuleConditions(cid, course.cms);
        AddSectionConditions(cid, course.sections);
        assert {} + ModuleConditionCmids(course.cms) + SectionConditionCmids(course.sections) == ReferencedCmids(course);
      }
      used := cmid in courses[cid];
    }

    /** The activities loop of completion_value_used: add the cmids named by every
        module's restriction tree to the course's set. */
    method AddModuleConditions(cid: int, cms: seq<Cm>)
      requires cid in courses
      modifies this
      ensures courses == old(courses)[cid := old(courses)[cid] + ModuleConditionCmids(cms)]
    {
      ghost var start := old(courses)[cid];
      assert start + ModuleConditionCmids(cms[..0]) == start;
      for i := 0 to |cms|
        invariant courses == old(courses)[cid := start + ModuleConditionCmids(cms[..i])]
      {
        var othercm := cms[i];
        ghost var before := start + ModuleConditionCmids(cms[..i]);
        ModuleConditionCmidsStep(cms, i);
        if othercm.availability.Some? {
          AddConditions(cid, othercm.availability.value);
        } else {
          assert before + TreeCmids(othercm.availability) == before;
        }
        assert before + TreeCmids(othercm.availability) == start + ModuleConditionCmids(cms[..i + 1]);
      }
      assert cms[..|cms|] == cms;
    }

    /** The sections loop of completion_value_used, as for the activities. */
    method AddSectionConditions(cid: int, sections: seq<Section>)
      requires cid in courses
      modifies this
      ensures courses == old(courses)[cid := old(courses)[cid] + SectionConditionCmids(sections)]
    {
      ghost var start := old(courses)[cid];
      assert start + SectionConditionCmids(sections[..0]) == start;
      for i := 0 to |sections|
        invariant courses == old(courses)[cid := start + SectionConditionCmids(sections[..i])]
      {
        var section := sections[i];
        ghost var before := start + SectionConditionCmids(sections[..i]);
        SectionConditionCmidsStep(sections, i);
        if section.availability.Some? {
          AddConditions(cid, section.availability.value);
        } else {
          assert before + TreeCmids(section.availability) == before;
        }
        assert before + TreeCmids(section.availability) == start + SectionConditionCmids(sections[..i + 1]);
      }
      assert sections[..|sections|] == sections;
    }

    /** The inner loop of completion_value_used: mark the cmid of every condition found
        in one restriction tree as used in the course. */
    method AddConditions(cid: int, children: seq<int>)
      requires cid in courses
      modifies this
      ensures courses == old(courses)[cid := old(courses)[cid] + Elements(children)]
    {
      var j := 0;
      assert old(courses)[cid] + Elements(children[..0]) == old(courses)[cid];
      assert courses == old(courses)[cid := old(courses)[cid]];
      while j < |children|
        invariant 0 <= j <= |children|
        invariant courses == old(courses)[cid := old(courses)[cid] + Elements(children[..j])]
      {
        ghost var before := old(courses)[cid] + Elements(children[..j]);
        courses := courses[cid := courses[cid] + {children[j]}];
        assert children[..j + 1][..j] == children[..j];
        assert before + {children[j]} == old(courses)[cid] + Elements(children[..j + 1]);
        j := j + 1;
      }
      assert children[..j] == children;
    }

    /** `wipe_static_cache()`. */
    method WipeStaticCache()
      modifies this
      ensures courses == map[]
    {
      courses := map[];
    }
  }

  // ---------------------------------------------------------------------------
  // The cache keys as written
  // ---------------------------------------------------------------------------

  /** PHP's conversion of a boolean by the `.` operator: "1" for true, "" for false. */
  function PhpBoolString(b: bool): string
  {
    if b then "1" else ""
  }

  /** The keys the source actually builds. is_available hashes `json_encode($info)`
      followed by `$grabthelot . $userid`; get_description hashes `$full . $not` followed
      by `json_encode($info)`. The joined flags and user id are kept as the one string
      the code builds; neither key includes the condition's `cmid` or `expectedstatus`,
      and is_available's key leaves out `$not`. */
  datatype KeyAsWritten =
    | AvailableKeyAsWritten(info: Info, grabthelotUserid: string)
    | DescriptionKeyAsWritten(fullNot: string, info: Info)

  function AvailableKeyFor(info: Info, grabthelot: bool, userid: int): KeyAsWritten
  {
    AvailableKeyAsWritten(info, PhpBoolString(grabthelot) + IntToString(userid))
  }

  function DescriptionKeyFor(full: bool, not: bool, info: Info): KeyAsWritten
  {
    DescriptionKeyAsWritten(PhpBoolString(full) + PhpBoolString(not), info)
  }

  /** Joining the flags loses them: ($grabthelot, $userid) = (true, 2) and (false, 12)
      give one key, and so do ($full, $not) = (true, false) and (false, true). */
  lemma KeysAsWrittenJoinFlags(info: Info)
    ensures AvailableKeyFor(info, true, 2) == AvailableKeyFor(info, false, 12)
    ensures DescriptionKeyFor(true, false, info) == DescriptionKeyFor(false, true, info)
  {
    assert IntToString(2) == "2";
    assert NatToString(12) == NatToString(1) + [DigitChar(2)];
    assert IntToString(12) == "12";
  }

  /** is_available as written, on the cache's contents: (answer, new contents). */
  function IsAvailableAsWritten(entries: map<KeyAsWritten, string>, world: World, info: Info,
                                grabthelot: bool, userid: int, p: Params, not: bool)
    : (r: (Result<bool, string>, map<KeyAsWritten, string>))
    ensures Recall(entries, AvailableKeyFor(info, grabthelot, userid)).Some?
            ==> r == (Ok(Unserialize(entries[AvailableKeyFor(info, grabthelot, userid)])), entries)
    ensures Recall(entries, AvailableKeyFor(info, grabthelot, userid)).None? ==> r.0 == Decide(world, info, userid, p, not)
    // Whatever answer is returned is what the next call with the same key gets back.
    ensures r.0.Ok? ==> Recall(r.1, AvailableKeyFor(info, grabthelot, userid)).Some?
                        && Unserialize(r.1[AvailableKeyFor(info, grabthelot, userid)]) == r.0.value
    ensures r.1 - {AvailableKeyFor(info, grabthelot, userid)} == entries - {AvailableKeyFor(info, grabthelot, userid)}
  {
    var k := AvailableKeyFor(info, grabthelot, userid);
    match Recall(entries, k)
    case Some(v) => (Ok(Unserialize(v)), entries)
    case None =>
      var r := Decide(world, info, userid, p, not);
      (r, if r.Ok? then entries[k := Serialize(r.value)] else entries)
  }

  /** get_description as written, on the cache's contents: (text, new contents). */
  function GetDescriptionAsWritten(entries: map<KeyAsWritten, string>, world: World, info: Info,
                                   full: bool, p: Params, not: bool)
    : (r: (string, map<KeyAsWritten, string>))
    ensures Recall(entries, DescriptionKeyFor(full, not, info)).Some? ==> r == (entries[DescriptionKeyFor(full, not, info)], entries)
    ensures Recall(entries, DescriptionKeyFor(full, not, info)).None? ==> r.0 == Describe(world, info, p, not)
    // The returned text is stored under the key, truthy or not.
    ensures DescriptionKeyFor(full, not, info) in r.1 && r.1[DescriptionKeyFor(full, not, info)] == r.0
    ensures r.1 - {DescriptionKeyFor(full, not, info)} == entries - {DescriptionKeyFor(full, not, info)}
  {
    var k := DescriptionKeyFor(full, not, info);
    match Recall(entries, k)
    case Some(v) => (v, entries)
    case None =>
      var r := Describe(world, info, p, not);
      (r, entries[k := r])
  }

  /** A course 5 with one quiz, module 7, whose review came back "Valid". */
  function SampleWorld(): World
  {
    World(true, "Valid", (course, user, context) => Records([ParticipantData("Valid")]), (key, a) => key)
  }

  function SampleInfo(): Info
  {
    Info(CONTEXT_MODULE, Modinfo(5, [Cm(7, "Quiz", 70, false, None, None)], []))
  }

  /** As written, a NOT condition evaluated after the plain one in the same request gets
      the plain one's answer back: the second call returns true where the override
      chain gives false. The same happens to a second condition on another module. */
  lemma IsAvailableKeyIgnoresCondition()
    ensures var first := IsAvailableAsWritten(map[], SampleWorld(), SampleInfo(), false, 2, Params(7, STATUS_VALID), false);
            var second := IsAvailableAsWritten(first.1, SampleWorld(), SampleInfo(), false, 2, Params(7, STATUS_VALID), true);
            && first.0 == Ok(true)
            && second.0 == Ok(true)
            && Decide(SampleWorld(), SampleInfo(), 2, Params(7, STATUS_VALID), true) == Ok(false)
    ensures var first := IsAvailableAsWritten(map[], SampleWorld(), SampleInfo(), false, 2, Params(7, STATUS_VALID), false);
            var other := IsAvailableAsWritten(first.1, SampleWorld(), SampleInfo(), false, 2, Params(8, STATUS_VALID), false);
            && other.0 == Ok(true)
            && Decide(SampleWorld(), SampleInfo(), 2, Params(8, STATUS_VALID), false) == Ok(false)
  {
    var w, info := SampleWorld(), SampleInfo();
    assert FindCm(info.modinfo.cms, 7) == Some(info.modinfo.cms[0]);
    assert FindCm(info.modinfo.cms, 8) == None;
    SerializeRoundTrip(true);
  }

  /** As written, a second condition on the same item describes itself with the first
      one's text: expected = invalid is shown as "requires_valid". */
  lemma DescriptionKeyIgnoresCondition()
    ensures var first := GetDescriptionAsWritten(map[], SampleWorld(), SampleInfo(), false, Params(7, STATUS_VALID), false);
            var second := GetDescriptionAsWritten(first.1, SampleWorld(), SampleInfo(), false, Params(7, STATUS_INVALID), false);
            && second.0 == "requires_valid"
            && Describe(SampleWorld(), SampleInfo(), Params(7, STATUS_INVALID), false) == "requires_invalid"
  {
  }

  /** Course 5's module 7, where user 2's review came back "Valid" and user 12's "Invalid". */
  function TwoUserWorld(): World
  {
    World(true, "Valid",
          (course, user, context) => Records([ParticipantData(if user == 2 then "Valid" else "Invalid")]),
          (key, a) => key)
  }

  /** As written, user 12 asking without `$grabthelot` after user 2 asked with it gets
      user 2's answer: true, where the override chain gives user 12 false. */
  lemma IsAvailableKeyJoinsUsers()
    ensures var first := IsAvailableAsWritten(map[], TwoUserWorld(), SampleInfo(), true, 2, Params(7, STATUS_VALID), false);
            var second := IsAvailableAsWritten(first.1, TwoUserWorld(), SampleInfo(), false, 12, Params(7, STATUS_VALID), false);
            && first.0 == Ok(true)
            && second.0 == Ok(true)
            && Decide(TwoUserWorld(), SampleInfo(), 12, Params(7, STATUS_VALID), false) == Ok(false)
  {
    var info := SampleInfo();
    assert FindCm(info.modinfo.cms, 7) == Some(info.modinfo.cms[0]);
    KeysAsWrittenJoinFlags(info);
    SerializeRoundTrip(true);
  }

  /** As written, the NOT form of a condition described without `$full` after its plain
      form was described with `$full` reuses the plain text "requires_valid". */
  lemma DescriptionKeyJoinsFlags()
    ensures var first := GetDescriptionAsWritten(map[], SampleWorld(), SampleInfo(), true, Params(7, STATUS_VALID), false);
            var second := GetDescriptionAsWritten(first.1, SampleWorld(), SampleInfo(), false, Params(7, STATUS_VALID), true);
            && second.0 == "requires_valid"
            && Describe(SampleWorld(), SampleInfo(), Params(7, STATUS_VALID), true) == "requires_invalid"
  {
    KeysAsWrittenJoinFlags(SampleInfo());
  }
}
