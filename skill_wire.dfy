/**
 * A SkillDTO as JSON. Jackson names a boolean property after its accessor
 * pair: isOffered()/setOffered and isApproved()/setApproved make the members
 * "offered" and "approved", both when it writes a response and when it binds
 * a request body. The private fields' own names never appear on the wire.
 */
module SkillWire {
  import opened Wrappers
  import opened JsValues
  import opened SkillDto

  function NumOrNull(v: Option<int>): JsValue
  {
    if v.Some? then Num(v.value) else Null
  }

  function StrOrNull(v: Option<string>): JsValue
  {
    if v.Some? then Str(v.value) else Null
  }

  /** The object the server writes for a skill. */
  function Body(d: SkillDTO): (o: JsObject)
    ensures o.Keys == {"id", "name", "description", "offered", "userId", "username", "approved"}
    ensures Get(o, "isOffered") == Undefined && Get(o, "isApproved") == Undefined
  {
    map["id" := NumOrNull(d.id), "name" := StrOrNull(d.name), "description" := StrOrNull(d.description),
        "offered" := Bool(d.isOffered), "userId" := NumOrNull(d.userId), "username" := StrOrNull(d.username),
        "approved" := Bool(d.isApproved)]
  }

  /** A number member binds a Long, a string member a String; anything else leaves the field null. */
  function BindNum(v: JsValue): Option<int>
  {
    if v.Num? then Some(v.n) else None
  }

  function BindStr(v: JsValue): Option<string>
  {
    if v.Str? then Some(v.s) else None
  }

  /**
   * The SkillDTO Jackson binds from a request body: it starts from the
   * no-argument constructor and sets each member it knows; unknown members
   * are ignored, and a flag without a boolean member keeps its default.
   */
  function Bind(o: JsObject): (d: SkillDTO)
    ensures d.isOffered <==> Get(o, "offered") == Bool(true)
    ensures d.isApproved <==> Get(o, "approved") != Bool(false)
    ensures d.name == BindStr(Get(o, "name")) && d.userId == BindNum(Get(o, "userId"))
  {
    var e := EmptySkillDTO();
    var offered := Get(o, "offered");
    var approved := Get(o, "approved");
    SkillDTO(BindNum(Get(o, "id")), BindStr(Get(o, "name")), BindStr(Get(o, "description")),
             if offered.Bool? then offered.b else e.isOffered,
             BindNum(Get(o, "userId")), BindStr(Get(o, "username")),
             if approved.Bool? then approved.b else e.isApproved)
  }

  /** What the server writes it reads back unchanged. */
  lemma BindWrittenBody(d: SkillDTO)
    ensures Bind(Body(d)) == d
  {
  }

  /**
   * As written the client reads `skill.isOffered` and `skill.isApproved`,
   * members no server answer has: both are undefined, hence falsy, for every
   * skill.
   */
  lemma AsWrittenFlagsUndefined(d: SkillDTO)
    ensures !Truthy(Get(Body(d), "isOffered")) && !Truthy(Get(Body(d), "isApproved"))
  {
  }

  /** Read under the names the server writes, the flags are the skill's own. */
  lemma WireFlagsReadBack(d: SkillDTO)
    ensures Truthy(Get(Body(d), "offered")) <==> d.isOffered
    ensures Truthy(Get(Body(d), "approved")) <==> d.isApproved
  {
  }
}
