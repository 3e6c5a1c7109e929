# availability_integrityadvocate in Dafny

This is a model of the Moodle availability condition "Restriction by Integrity Advocate".
A course designer can restrict an activity or section by the proctoring review status
of another course module. The status is fetched from a remote service through the
sibling block `block_integrityadvocate`.

- `common.dfy` (module `Common`): the `Option` and `Result` wrappers, with `Err` standing for a thrown exception and carrying the message the code intends (see "## Left out" for the four `new Exception` sites). It also holds PHP's integer-to-string conversion with its inverse, and ASCII case folding.
- `moodle.dfy` (module `Moodle`): the host records the plugin reads. These are course modules (`Cm`), sections, a course's modinfo, and the `$modinfo->cms[$id]` lookup.
- `condition.dfy` (module `AvailabilityCondition`) models `classes/condition.php`:
  - the two-field `Condition` class, built from its decoded JSON and saved back;
  - the `is_available` override chain, as the pure `Decide` and the step-by-step `Condition.IsAvailable`, with the per-request cache;
  - `get_description`, `get_debug_string`, id remapping on restore and on dependency updates;
  - the static course-to-used-cmids map behind `completion_value_used` (class `ModsUsedInCondition`).
- `frontend.dfy` (module `AvailabilityFrontend`) models `classes/frontend.php`. It covers the dropdown list built by `get_javascript_init_params`, its stored key, and `allow_add`.

Inputs to the model: everything the plugin asks of the outside world. This is the
record `World`: whether the block is installed, the block's
`INTEGRITYADVOCATE_API_STATUS_VALID` string, the remote lookup, and `get_string`. The
other inputs are the item's context level and modinfo, the restore mapping, the
`course_modules` table, the activity lookup and `format_string`.

Where the code differs from what one might expect; the model follows the code:
- The constructor does not check that `cm` names an existing module. It only checks that `cm` is numeric and `e` is 0 or 1.
- The per-request cache key of `is_available` does not contain the condition's parameters or `$not`, and it joins `$grabthelot` and `$userid` into one string. The key of `get_description` does not contain the condition's parameters, and it joins `$full` and `$not` into one string. See Findings.
- `frontend.php` declares a property `cacheparams` that nothing uses. It stores its parameters in an undeclared `cacheinitparams`, which the model has as a field.

## Model

| member | source | states |
|---|---|---|
| `AvailabilityCondition.Decode` | classes/condition.php:61-97 | construction succeeds exactly when `cm` is numeric and `e` is 0 or 1, yielding those values; otherwise the `cm` message if `cm` is bad, else the `e` message |
| `AvailabilityCondition.Condition.FromStructure` | classes/condition.php:61-97 | the step-by-step constructor raises exactly as Decode does and otherwise yields a fresh condition holding the decoded fields, with a valid status |
| `AvailabilityCondition.GetJson` | classes/condition.php:125-128 | the object has type "integrityadvocate", and the constructor accepts it exactly when `e` is 0 or 1, reading back the given cm and e |
| `AvailabilityCondition.Condition.Save` | classes/condition.php:104-113 | the object has type "integrityadvocate", and for a valid condition the constructor reads back exactly the condition's own fields |
| `AvailabilityCondition.GetJsonRoundTrip` | classes/condition.php:104-128 | for any cm and e in {0,1}, constructing from `get_json(cm, e)` and saving gives `{type: "integrityadvocate", cm, e}` again |
| `AvailabilityCondition.SaveRoundTrip` | classes/condition.php:104-113 | every structure the constructor accepts is reproduced by `save` |
| `AvailabilityCondition.Decide` | classes/condition.php:172-251 | the override chain: without the block the answer is true; with it, a module missing from the course in a module context gives false; it raises only for a non-module context or a status other than 0 and 1 |
| `AvailabilityCondition.AllowedWithoutBlock` | classes/condition.php:172-177 | with the sibling block not installed the answer is true whatever `not` is |
| `AvailabilityCondition.RaisesOutsideModuleContext` | classes/condition.php:179-185 | with the block installed, a context that is not a module context raises |
| `AvailabilityCondition.DeniedWhenUnresolved` | classes/condition.php:187-223 | a cmid missing from the course, a remote error string or an empty remote result give false whatever `not` is |
| `AvailabilityCondition.NotInvertsComparison` | classes/condition.php:225-247 | otherwise the answer is (status === API valid string) for expected valid, or (status starts with "invalid", ignoring case) for expected invalid, negated exactly when `not`; other statuses raise |
| `AvailabilityCondition.NotFlipsOnlyComparison` | classes/condition.php:245-251 | flipping `not` flips an answer the comparison gave and leaves an overridden answer unchanged |
| `AvailabilityCondition.ExpectationsExclusive` | classes/condition.php:229-237 | unless the API's valid string itself begins with "invalid", no review status meets both the valid and the invalid expectation |
| `AvailabilityCondition.Condition.IsAvailable` | classes/condition.php:153-259 | the step-by-step method returns the override chain's answer; on a cache hit it returns the stored value, false included, and leaves the cache alone; otherwise it stores its answer, except on an exception; the cache keeps agreeing with the computation |
| `AvailabilityCondition.SerializeRoundTrip` | classes/condition.php:164-169 | a serialized boolean, false included, is truthy and unserializes to itself, so a stored false is found again |
| `AvailabilityCondition.Recall` | classes/condition.php:165-170 | a cache read answers only when a truthy value is stored under the key, and then with that value |
| `AvailabilityCondition.DescriptionKeyIsXor` | classes/condition.php:309-327 | the key is `requires_valid` exactly when (expected status is not 0) XOR `not`, and `requires_invalid` otherwise |
| `AvailabilityCondition.ModNameNamesTheModule` | classes/condition.php:300-306 | the name is `<AVAILABILITY_CMNAME_{cmid}/>` when the course has the module, and the 'missing' string when it does not |
| `AvailabilityCondition.Describe` | classes/condition.php:300-330 | the text is the `requires_valid` string with the module's name when (status is not 0) XOR `not`, and the `requires_invalid` string otherwise |
| `AvailabilityCondition.Condition.GetDescription` | classes/condition.php:284-338 | returns the language string for the chosen key with the module name; a truthy cached text is returned unchanged, otherwise the text is stored |
| `AvailabilityCondition.DebugString` | classes/condition.php:346-358 | succeeds exactly for status 1 or 0 and raises for any other status |
| `AvailabilityCondition.ValidStatusNeverRaises` | classes/condition.php:229-241 | for a status of 0 or 1, as the constructor guarantees, the debug string exists and is_available raises only for a non-module context: the `default:` branches are unreachable |
| `AvailabilityCondition.Condition.GetDebugString` | classes/condition.php:346-358 | a valid condition always has a debug string |
| `AvailabilityCondition.DebugStringDistinguishes` | classes/condition.php:357 | equal debug strings `cm<id> valid` / `cm<id> invalid` come from equal cmid and status |
| `AvailabilityCondition.Condition.UpdateAfterRestore` | classes/condition.php:371-391 | a mapping with non-zero newitemid sets cmid to it and returns true; with no mapping, a cm already in the target course returns false and changes nothing; otherwise cmid becomes 0, a warning is logged and true is returned; expectedstatus never changes, so a valid condition stays valid |
| `AvailabilityCondition.Condition.UpdateDependencyId` | classes/condition.php:458-467 | returns true and sets cmid to newid exactly when the table is `course_modules` and cmid equals oldid; otherwise nothing changes; expectedstatus never changes, so a valid condition stays valid |
| `AvailabilityCondition.ModsUsedInCondition.CompletionValueUsed` | classes/condition.php:401-437 | the course's set is built on first use from its modules' and sections' conditions and reused unchanged afterwards; the answer is membership of cmid in the stored set |
| `AvailabilityCondition.ModsUsedInCondition.AddModuleConditions` | classes/condition.php:412-422 | the activities loop adds to the course's set exactly the cmids named by the modules' trees |
| `AvailabilityCondition.ModsUsedInCondition.AddSectionConditions` | classes/condition.php:424-434 | the sections loop adds to the course's set exactly the cmids named by the sections' trees |
| `AvailabilityCondition.ModsUsedInCondition.AddConditions` | classes/condition.php:419-421 | every cmid named by one restriction tree is added to the course's set, nothing else changes |
| `AvailabilityCondition.ReferencedCmidsIff` | classes/condition.php:412-434 | a cmid is in the built set exactly when some integrityadvocate condition of a module or of a section of the course names it |
| `AvailabilityCondition.ModsUsedInCondition.WipeStaticCache` | classes/condition.php:442-444 | the static map becomes empty |
| `AvailabilityCondition.IsAvailableAsWritten` | classes/condition.php:153-259 | is_available with the key as written at line 162: a cache hit answers the unserialized stored value and leaves the cache alone; a miss gives the override chain's answer; an answer returned is stored so that the next call with the same key gets it back; no other key changes |
| `AvailabilityCondition.GetDescriptionAsWritten` | classes/condition.php:284-338 | get_description with the key as written at line 291: a truthy cached text is returned unchanged; otherwise the computed description; the returned text is stored under the key; no other key changes |
| `AvailabilityCondition.KeysAsWrittenJoinFlags` | classes/condition.php:162 | the key as written joins `$grabthelot . $userid` into one string, so (true, 2) and (false, 12) share a key; likewise `$full . $not` at line 291 for (true, false) and (false, true) |
| `AvailabilityCondition.IsAvailableKeyJoinsUsers` | classes/condition.php:162 | with the key as written, user 12 asking without `$grabthelot` gets the answer computed for user 2 with it |
| `AvailabilityCondition.DescriptionKeyJoinsFlags` | classes/condition.php:291 | with the key as written, the NOT form of a condition described without `$full` gets the text of its plain form described with `$full` |
| `AvailabilityCondition.IsAvailableKeyIgnoresCondition` | classes/condition.php:162 | with the key as written, a NOT condition, or a condition on another module, evaluated later in the same request returns the first condition's answer instead of its own |
| `AvailabilityCondition.DescriptionKeyIgnoresCondition` | classes/condition.php:291 | with the key as written, a second condition expecting invalid is described with the first condition's "requires_valid" text |
| `Moodle.FindCm` | classes/condition.php:189 | the module lookup finds a module exactly when the course has one with that id, and returns that module |
| `AvailabilityFrontend.FilterActivities` | classes/frontend.php:100-119 | the loop's list is exactly `Choices`, one entry per activity kept |
| `AvailabilityFrontend.ChoicesAppend` | classes/frontend.php:101-119 | the list of a concatenation is the concatenation of the lists, so input order is kept |
| `AvailabilityFrontend.ChoicesOne` | classes/frontend.php:108-118 | a single activity contributes `{id, name, completiongradeitemnumber}` once if it is neither the current one nor being deleted, and nothing otherwise |
| `AvailabilityFrontend.ChoicesMembership` | classes/frontend.php:108-118 | an entry is in the list exactly when it is the entry of an activity that is neither the current one nor being deleted |
| `AvailabilityFrontend.ChoicesOmitCurrentAndDeleted` | classes/frontend.php:108-111 | no entry has the current activity's id, and each entry's id is that of an activity not being deleted |
| `AvailabilityFrontend.ChoicesLength` | classes/frontend.php:101-119 | the list is never longer than the activity list |
| `AvailabilityFrontend.ChoicesEmptyIff` | classes/frontend.php:101-119 | the list is empty exactly when no activity is offered |
| `AvailabilityFrontend.Frontend.GetJavascriptInitParams` | classes/frontend.php:67-127 | without the block or without an activity array the parameters are empty; otherwise they are the one-element array of the filtered list; the stored key is `course,cm` + section on every path; the result never depends on the previously stored key |
| `AvailabilityFrontend.AllowAddIff` | classes/frontend.php:140-155 | the add test holds exactly when the block is installed, the lookup gave an array, and some activity in it is offered |
| `AvailabilityFrontend.Frontend.AllowAdd` | classes/frontend.php:140-155 | false on empty parameters, otherwise true exactly when the filtered list is non-empty, which holds exactly when the block is installed, the lookup gave an array and some activity in it is offered; the stored key and parameters are those get_javascript_init_params leaves |

## Left out

- `Condition.IsAvailable` and `Condition.GetDescription`: these use the corrected cache keys of the Findings. The keys as written are modelled by `IsAvailableAsWritten` and `GetDescriptionAsWritten`.
- Cache keys are modelled by the data they hash. The sha1 of `json_encode` is taken to be injective, and `json_encode($info)` is kept apart from the flags joined to it. The as-written keys keep the whole `$info` as a component, so they tell items apart; if `json_encode` of Moodle's info object gives the same string for every item (for instance "{}" when all its properties are protected), the keys at condition.php:162 and :291 are coarser than modelled and the Findings are wider. The as-written keys keep `$grabthelot . $userid` and `$full . $not` as the joined strings the code builds. A request is taken to see one fixed `World`, so the remote lookup answers the same within a request.
- condition.php declares `namespace availability_integrityadvocate` (line 25) and imports no `Exception`, so `new Exception(...)` at lines 184, 241, 254 and 334 names the undefined class `availability_integrityadvocate\Exception`: PHP raises a class-not-found `Error` there, which `catch (\Exception $e)` does not catch, and whose message is not the one written. The model's `Err` carries the intended message; that these four sites raise at all is modelled, what they raise is not. The `\coding_exception` raises at lines 72, 95 and 355 are fully qualified and carry their messages as modelled.
- A failing `$cache->set` raises an exception in the source (condition.php:253-255, 333-335). The model's cache store always succeeds.
- PHP's loose comparisons are not modelled. `is_number` accepts numeric strings; a decoded field is either not numeric or the integer after the `(int)` cast. `in_array` at line 84 is loose, and `e` is stored uncast. The model keeps `e` as an integer 0 or 1.
- Integers are unbounded. PHP's 64-bit integers and their overflow to float do not occur in ids.
- The remote lookup is modelled as an error string or an array of records with a `ReviewStatus`. A non-string, non-array result, and an array without index 0, are not modelled.
- `stripos` case folding is ASCII only. Locale-dependent folding of older PHP versions is not modelled.
- `error_log` debug output is not modelled. The `$logger` warning level is not modelled; the logger keeps only the message.
- `get_fast_modinfo` and the availability-tree walkers are inputs. Each module's or section's restriction tree is given as the list of cmids its integrityadvocate conditions name.
- In frontend.php:103-105, every element of the activity list goes through `get_cm($othercm['context']->instanceid)`, because `gettype` of any object is "object", never "cm_info". This conversion is not modelled: the activity lookup is given as already-resolved modules.
- `get_javascript_strings` (frontend.php:55-57) returns a constant list of language keys and is not modelled.
- `classes/privacy/provider.php` is not part of this model. It only forwards GDPR requests to the sibling block.
- `yui/src/form/js/form.js` (form rendering), `lang/en/availability_integrityadvocate.php` (a string table, modelled as the `getString` input) and `version.php` are not part of this model. `locallib.php` is modelled as the boolean `blockInstalled`.

## Findings

| source | as written | input that shows it | evidently intended | confidence | as-written member | corrected member |
|---|---|---|---|---|---|---|
| classes/condition.php:162 | the per-request key of `is_available` hashes only `$info` followed by the joined string `$grabthelot . $userid`; it leaves out `$not`, `cmid` and `expectedstatus`, and (true, 2) joins to the same "12" as (false, 12) | course 5 with module 7 whose review is "Valid", user 2: the condition on cm 7 (valid) answers true; the same condition under NOT then also answers true, where the chain gives false; a condition on cm 8 (not in the course) also answers true, where the chain gives false (lemma `IsAvailableKeyIgnoresCondition`); and user 12 asking without `$grabthelot` after user 2 asked with it gets user 2's true, where user 12's review gives false (lemma `IsAvailableKeyJoinsUsers`) | the key also covers `$not` and the condition's own fields, with the flags and the user id kept apart, so a cached answer is the answer the chain would give | not executed; high | `AvailabilityCondition.IsAvailableKeyIgnoresCondition`, `AvailabilityCondition.IsAvailableAsWritten` | `AvailabilityCondition.Condition.IsAvailable` |
| classes/condition.php:291 | the per-request key of `get_description` hashes only the joined string `$full . $not` and `$info`; it leaves out `cmid` and `expectedstatus`, and (true, false) joins to the same "1" as (false, true) | the same course: after describing the condition on cm 7 expecting valid, a condition on cm 7 expecting invalid is described as "requires_valid" (lemma `DescriptionKeyIgnoresCondition`); and the NOT form of the cm 7 condition, described without `$full` after the plain form was described with it, is also described as "requires_valid" (lemma `DescriptionKeyJoinsFlags`) | the key also covers the condition's own fields, with `$full` and `$not` kept apart | not executed; high | `AvailabilityCondition.DescriptionKeyIgnoresCondition`, `AvailabilityCondition.GetDescriptionAsWritten` | `AvailabilityCondition.Condition.GetDescription` |
