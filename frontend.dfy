/** The editing-form side of the condition (classes/frontend.php): the list of other
    activities offered in the condition's dropdown, and whether the "add" button shows. */
module AvailabilityFrontend {
  import opened Common
  import opened Moodle

  /** `$debug` in get_javascript_init_params: set, so the stored key never short-circuits. */
  const DEBUG: bool := true

  /** One dropdown entry: `{id, name, completiongradeitemnumber}`. */
  datatype Choice = Choice(id: int, name: string, completiongradeitemnumber: Option<int>)

  /** What `block_integrityadvocate_get_course_ia_activities` returns: not an array, or
      the course's visible, configured activities as modules. */
  datatype ActivityLookup = NotAnArray | Activities(cms: seq<Cm>)

  /** An activity is offered unless it is the one being edited or it is being deleted. */
  predicate Offered(a: Cm, current: Option<int>)
  {
    current != Some(a.id) && !a.deletioninprogress
  }

  /** The entry for an activity; `format` is `format_string` in the course context. */
  function ChoiceOf(a: Cm, format: string -> string): Choice
  {
    Choice(a.id, format(a.name), a.completiongradeitemnumber)
  }

  /** The entries for a list of activities, front to back. */
  function Choices(acts: seq<Cm>, current: Option<int>, format: string -> string): seq<Choice>
  {
    if acts == [] then []
    else
      var last := acts[|acts| - 1];
      Choices(acts[..|acts| - 1], current, format) + (if Offered(last, current) then [ChoiceOf(last, format)] else [])
  }

  /** Choosing distributes over concatenation: the list keeps the input order. */
  lemma {:induction false} ChoicesAppend(a: seq<Cm>, b: seq<Cm>, current: Option<int>, format: string -> string)
    ensures Choices(a + b, current, format) == Choices(a, current, format) + Choices(b, current, format)
  {
    if b != [] {
      var init := b[..|b| - 1];
      assert (a + b)[..|a + b| - 1] == a + init;
      assert (a + b)[|a + b| - 1] == b[|b| - 1];
      ChoicesAppend(a, init, current, format);
    } else {
      assert a + b == a;
    }
  }

  /** An entry is in the list exactly when it is the entry of an offered activity. */
  lemma {:induction false} ChoicesMembership(acts: seq<Cm>, current: Option<int>, format: string -> string, c: Choice)
    ensures c in Choices(acts, current, format)
            <==> exists i :: 0 <= i < |acts| && Offered(acts[i], current) && c == ChoiceOf(acts[i], format)
  {
    if acts != [] {
      var init := acts[..|acts| - 1];
      ChoicesMembership(init, current, format, c);
      if exists i :: 0 <= i < |acts| && Offered(acts[i], current) && c == ChoiceOf(acts[i], format) {
        var i :| 0 <= i < |acts| && Offered(acts[i], current) && c == ChoiceOf(acts[i], format);
        if i < |acts| - 1 {
          assert init[i] == acts[i];
        }
      }
    }
  }

  /** The activity being edited and the activities being deleted never appear; every
      entry carries the id of an activity in the input. */
  lemma ChoicesOmitCurrentAndDeleted(acts: seq<Cm>, current: Option<int>, format: string -> string)
    ensures forall c | c in Choices(acts, current, format) ::
              current != Some(c.id) && exists i :: 0 <= i < |acts| && !acts[i].deletioninprogress && acts[i].id == c.id
  {
    forall c | c in Choices(acts, current, format)
      ensures current != Some(c.id) && exists i :: 0 <= i < |acts| && !acts[i].deletioninprogress && acts[i].id == c.id
    {
      ChoicesMembership(acts, current, format, c);
    }
  }

  /** One activity contributes its entry if it is offered and nothing otherwise; with
      ChoicesAppend this gives one entry per offered activity, in input order. */
  lemma ChoicesOne(a: Cm, current: Option<int>, format: string -> string)
    ensures Choices([a], current, format) == if Offered(a, current) then [ChoiceOf(a, format)] else []
  {
    assert [a][..0] == [];
  }

  /** The list is empty exactly when no activity is offered. */
  lemma ChoicesEmptyIff(acts: seq<Cm>, current: Option<int>, format: string -> string)
    ensures Choices(acts, current, format) == [] <==> forall i :: 0 <= i < |acts| ==> !Offered(acts[i], current)
  {
    if Choices(acts, current, format) == [] {
      forall i | 0 <= i < |acts| ensures !Offered(acts[i], current) {
        ChoicesMembership(acts, current, format, ChoiceOf(acts[i], format));
      }
    } else {
      ChoicesMembership(acts, current, format, Choices(acts, current, format)[0]);
    }
  }

  lemma {:induction false} ChoicesLength(acts: seq<Cm>, current: Option<int>, format: string -> string)
    ensures |Choices(acts, current, format)| <= |acts|
  {
    if acts != [] {
      ChoicesLength(acts[..|acts| - 1], current, format);
    }
  }

  /** The loop of get_javascript_init_params: skip the current activity and any being
      deleted, and append an entry for each of the others. */
  method FilterActivities(acts: seq<Cm>, current: Option<int>, format: string -> string)
    returns (cms: seq<Choice>)
    ensures cms == Choices(acts, current, format)
  {
    cms := [];
    for i := 0 to |acts|
      invariant cms == Choices(acts[..i], current, format)
    {
      var othercm := acts[i];
      assert acts[..i + 1][..i] == acts[..i];
      if current == Some(othercm.id) || othercm.deletioninprogress {
        continue;
      }
      cms := cms + [ChoiceOf(othercm, format)];
    }
    assert acts[..|acts|] == acts;
  }

  /** The initialisation parameters for a successful build or a failed one. */
  function InitParams(blockInstalled: bool, lookup: ActivityLookup, current: Option<int>, format: string -> string)
    : seq<seq<Choice>>
  {
    if !blockInstalled then []
    else match lookup
      case NotAnArray => []
      case Activities(acts) => [Choices(acts, current, format)]
  }

  /** `$course->id . ',' . ($cm ? $cm->id : '') . ($section ? $section->id : '')`. */
  function InitParamsKey(courseId: int, cmId: Option<int>, sectionId: Option<int>): string
  {
    IntToString(courseId) + ","
      + (if cmId.Some? then IntToString(cmId.value) else "")
      + (if sectionId.Some? then IntToString(sectionId.value) else "")
  }

  /** allow_add's test on the parameters: present, and the list in them not empty. */
  function AllowAddFrom(params: seq<seq<Choice>>): bool
  {
    if |params| == 0 then false else |params[0]| != 0
  }

  /** The "add" button shows exactly when the block is installed, the lookup gave an
      array, and some activity in it other than the current one is not being deleted. */
  lemma AllowAddIff(blockInstalled: bool, lookup: ActivityLookup, current: Option<int>, format: string -> string)
    ensures AllowAddFrom(InitParams(blockInstalled, lookup, current, format))
            <==> blockInstalled && lookup.Activities?
                 && exists i :: 0 <= i < |lookup.cms| && Offered(lookup.cms[i], current)
  {
    if blockInstalled && lookup.Activities? {
      ChoicesEmptyIff(lookup.cms, current, format);
    }
  }

  class Frontend {
    /** `$this->cachekey`. */
    var cachekey: string
    /** `$this->cacheinitparams`, the parameters last built. */
    var cacheinitparams: seq<seq<Choice>>

    constructor ()
      ensures cachekey == "" && cacheinitparams == []
    {
      cachekey := "";
      cacheinitparams := [];
    }

    /** `get_javascript_init_params($course, $cm, $section)`. The block's installation
        and its activity lookup are inputs; the result is rebuilt on every call. */
    method GetJavascriptInitParams(courseId: int, cm: Option<Cm>, sectionId: Option<int>,
                                   blockInstalled: bool, lookup: ActivityLookup, format: string -> string)
      returns (params: seq<seq<Choice>>)
      modifies this
      ensures cachekey == InitParamsKey(courseId, if cm.Some? then Some(cm.value.id) else None, sectionId)
      ensures cacheinitparams == InitParams(blockInstalled, lookup, if cm.Some? then Some(cm.value.id) else None, format)
      ensures params == cacheinitparams
    {
      var current := if cm.Some? then Some(cm.value.id) else None;
      var key := InitParamsKey(courseId, current, sectionId);
      if DEBUG || key != cachekey {
        if !blockInstalled {
          cachekey := key;
          cacheinitparams := [];
          return cacheinitparams;
        }
        if lookup.NotAnArray? {
          cachekey := key;
          cacheinitparams := [];
          return cacheinitparams;
        }
        var cms := FilterActivities(lookup.cms, current, format);
        cachekey := key;
        cacheinitparams := [cms];
      }
      return cacheinitparams;
    }

    /** `allow_add($course, $cm, $section)`. */
    method AllowAdd(courseId: int, cm: Option<Cm>, sectionId: Option<int>,
                    blockInstalled: bool, lookup: ActivityLookup, format: string -> string)
      returns (allowed: bool)
      modifies this
      ensures cachekey == InitParamsKey(courseId, if cm.Some? then Some(cm.value.id) else None, sectionId)
      ensures cacheinitparams == InitParams(blockInstalled, lookup, if cm.Some? then Some(cm.value.id) else None, format)
      ensures allowed == AllowAddFrom(cacheinitparams)
      ensures allowed <==> blockInstalled && lookup.Activities?
                           && exists i :: 0 <= i < |lookup.cms|
                                && Offered(lookup.cms[i], if cm.Some? then Some(cm.value.id) else None)
    {
      var params := GetJavascriptInitParams(courseId, cm, sectionId, blockInstalled, lookup, format);
      AllowAddIff(blockInstalled, lookup, if cm.Some? then Some(cm.value.id) else None, format);
      if |params| == 0 {
        return false;
      }
      allowed := |params[0]| != 0;
    }
  }
}
