/**
 * SkillDTO: the skill as the API carries it, with the Bean Validation rules
 * of its @Valid request bodies. Reference fields may be null (None); the two
 * flags are primitive booleans.
 */
module SkillDto {
  import opened Wrappers
  import opened Text

  datatype SkillDTO = SkillDTO(
    id: Option<int>,
    name: Option<string>,
    description: Option<string>,
    isOffered: bool,
    userId: Option<int>,
    username: Option<string>,
    isApproved: bool)

  const MaxName := 30
  const MaxDescription := 200

  /**
   * @NotBlank and @Size(max = 30) on the name, @Size(max = 200) on the
   * description (a null passes @Size). The @NotNull on the primitive flag can
   * never fail.
   */
  predicate IsValid(d: SkillDTO)
  {
    d.name.Some? && !IsJavaBlank(d.name.value) && |d.name.value| <= MaxName
    && (d.description.None? || |d.description.value| <= MaxDescription)
  }

  /** The no-argument constructor that Jackson uses: every reference null, not offered, approved. */
  function EmptySkillDTO(): (d: SkillDTO)
    ensures d.isApproved && !d.isOffered && d.name.None?
  {
    SkillDTO(None, None, None, false, None, None, true)
  }

  /** A body Jackson builds without a name is refused. */
  lemma EmptyBodyIsInvalid()
    ensures !IsValid(EmptySkillDTO())
  {
  }

  /**
   * A body is valid exactly when its name has a non-whitespace character and
   * at most 30 characters and its description, if any, at most 200; the id,
   * the owner fields and both flags play no part.
   */
  lemma ValidIff(d: SkillDTO, id: Option<int>, offered: bool, userId: Option<int>, username: Option<string>, approved: bool)
    ensures IsValid(d) <==> (d.name.Some? && (exists i :: 0 <= i < |d.name.value| && d.name.value[i] > ' ')
                             && |d.name.value| <= 30
                             && (d.description.None? || |d.description.value| <= 200))
    ensures IsValid(d) == IsValid(d.(id := id, isOffered := offered, userId := userId, username := username, isApproved := approved))
  {
  }
}
