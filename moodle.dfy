/** The records of the host framework (Moodle) that the plugin reads. The plugin never
    builds them: they reach it through `$info`, `get_fast_modinfo` and the availability
    tree walker, and here they are plain inputs. */
module Moodle {
  import opened Common

  /** Moodle's context level of a course module (CONTEXT_MODULE). */
  const CONTEXT_MODULE: int := 70

  /** A course module (Moodle's cm_info). `contextId` is `$cm->context->id`.
      `availability` is None when the module has no restriction tree; otherwise it lists
      the `cmid` of every integrityadvocate condition the tree walker finds in the tree. */
  datatype Cm = Cm(
    id: int,
    name: string,
    contextId: int,
    deletioninprogress: bool,
    completiongradeitemnumber: Option<int>,
    availability: Option<seq<int>>)

  /** A course section (Moodle's section_info), with its restriction tree as for Cm. */
  datatype Section = Section(id: int, availability: Option<seq<int>>)

  /** The modinfo of one course: its id, its modules and its sections. */
  datatype Modinfo = Modinfo(courseId: int, cms: seq<Cm>, sections: seq<Section>)

  /** `$modinfo->cms[$id]`: the module with that id, if the course has one. */
  function FindCm(cms: seq<Cm>, id: int): (r: Option<Cm>)
    ensures r.Some? <==> exists i :: 0 <= i < |cms| && cms[i].id == id
    ensures r.Some? ==> r.value.id == id && r.value in cms
  {
    if cms == [] then None
    else if cms[0].id == id then Some(cms[0])
    else
      var r := FindCm(cms[1..], id);
      assert (exists i :: 0 <= i < |cms[1..]| && cms[1..][i].id == id)
          <==> (exists i :: 0 <= i < |cms| && cms[i].id == id) by {
        if exists i :: 0 <= i < |cms| && cms[i].id == id {
          var i :| 0 <= i < |cms| && cms[i].id == id;
          assert cms[1..][i - 1].id == id;
        }
      }
      r
  }
}
