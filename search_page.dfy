/**
 * The skill search page: suggestions from the predefined skill list as the
 * term is typed, the search submission routed by scope, and the selection of
 * a suggestion. The skill service is a parameter: given the call the page
 * makes, it yields the result list, or None when the call throws.
 */
module SearchPage {
  import opened Wrappers
  import opened Text
  import opened SkillDto
  import DataInitializer

  const PredefinedSkills: seq<string> := [
    "Java", "React", "HTML", "CSS", "JavaScript", "Python", "C", "C++", "C#",
    "PHP", "Ruby", "Swift", "Kotlin", "Go", "Rust", "TypeScript", "Angular",
    "Vue.js", "Node.js", "Express.js", "Django", "Flask", "Spring", "Hibernate"]
    + ["SQL", "MongoDB", "PostgreSQL", "MySQL", "Firebase", "AWS", "Docker",
    "Kubernetes", "Git", "DevOps", "Machine Learning", "Artificial Intelligence",
    "Data Science", "Blockchain", "UI/UX Design", "Graphic Design", "Photography",
    "Video Editing", "Content Writing", "Digital Marketing", "SEO", "Social Media Marketing"]

  const MaxSuggestions := 5
  const BlankTermMessage := "Please enter a skill to search for"
  const SearchFailedMessage := "Failed to search skills. Please try again later."

  /** The page offers the same skill names the backend seeds at start-up. */
  lemma SameSkillsAsSeeded()
    ensures PredefinedSkills == DataInitializer.PredefinedSkills
  {
  }

  /** `skill.toLowerCase().includes(term.toLowerCase())`. */
  predicate Matches(skill: string, term: string)
  {
    ContainsIgnoreCase(skill, term)
  }

  /** The skills of `list` that match the term, in list order. */
  function MatchingSkills(list: seq<string>, term: string): (r: seq<string>)
    ensures |r| <= |list|
    ensures forall s :: s in r <==> s in list && Matches(s, term)
  {
    if list == [] then []
    else (if Matches(list[0], term) then [list[0]] else []) + MatchingSkills(list[1..], term)
  }

  /** The first list entry that matches is the first match. */
  lemma {:induction false} FirstMatchLeads(list: seq<string>, term: string, i: nat)
    requires i < |list| && Matches(list[i], term)
    requires forall j :: 0 <= j < i ==> !Matches(list[j], term)
    ensures MatchingSkills(list, term) != [] && MatchingSkills(list, term)[0] == list[i]
    decreases i
  {
    if i > 0 {
      FirstMatchLeads(list[1..], term, i - 1);
    }
  }

  /** The suggestion effect: nothing for a blank term, else the first five matches. */
  function Suggestions(term: string): (r: seq<string>)
    ensures IsJsBlank(term) ==> r == []
    ensures |r| <= MaxSuggestions && |r| <= |MatchingSkills(PredefinedSkills, term)|
    ensures !IsJsBlank(term) ==> r == MatchingSkills(PredefinedSkills, term)[..|r|]
    ensures !IsJsBlank(term) && |MatchingSkills(PredefinedSkills, term)| <= MaxSuggestions ==> r == MatchingSkills(PredefinedSkills, term)
    ensures forall s :: s in r ==> s in PredefinedSkills && Matches(s, term)
  {
    if IsJsBlank(term) then []
    else
      var all := MatchingSkills(PredefinedSkills, term);
      if |all| <= MaxSuggestions then all else all[..MaxSuggestions]
  }

  /** A predefined skill that is not suggested is left out only because five earlier ones were. */
  lemma OnlyCutByLimit(term: string, s: string)
    requires !IsJsBlank(term) && s in PredefinedSkills && Matches(s, term) && s !in Suggestions(term)
    ensures |Suggestions(term)| == MaxSuggestions
  {
  }

  /** Every string matches itself, whatever its case. */
  lemma {:induction false} MatchesItself(s: string)
    ensures Matches(s, s)
  {
    assert OccursAt(Lower(s), Lower(s), 0);
  }

  /** Choosing the scope of a search: the three skill-service calls. */
  datatype SearchCall = SearchOffered(term: string) | SearchWanted(term: string) | SearchAll(term: string)

  /** The switch on the scope: 'offered' and 'wanted' pick their search, anything else the unscoped one. */
  function CallFor(searchType: string, term: string): (c: SearchCall)
    ensures c.term == term
    ensures c.SearchOffered? <==> searchType == "offered"
    ensures c.SearchWanted? <==> searchType == "wanted"
    ensures c.SearchAll? <==> searchType != "offered" && searchType != "wanted"
  {
    if searchType == "offered" then SearchOffered(term)
    else if searchType == "wanted" then SearchWanted(term)
    else SearchAll(term)
  }

  /** The skill service as the page sees it: a result list, or None when the request fails. */
  type SkillService = SearchCall -> Option<seq<SkillDTO>>

  class Page {
    var searchTerm: string
    var searchType: string
    var results: seq<SkillDTO>
    var loading: bool
    var error: Option<string>
    var selectedSkill: string
    var filteredSkills: seq<string>
    /** The address bar, which pushState rewrites. */
    var url: string

    /** The suggestions shown are at most five predefined skills. */
    predicate SuggestionsSound()
      reads this
    {
      |filteredSkills| <= MaxSuggestions && forall s :: s in filteredSkills ==> s in PredefinedSkills
    }

    /**
     * The page after its first render: the term is the `skill` query
     * parameter or '', and the suggestion effect has run on it.
     */
    constructor (skillParam: Option<string>, url: string)
      ensures searchTerm == skillParam.GetOr("") && searchType == "all"
      ensures results == [] && !loading && error == None && selectedSkill == ""
      ensures filteredSkills == Suggestions(searchTerm) && this.url == url
      ensures SuggestionsSound()
    {
      searchTerm := skillParam.GetOr("");
      searchType := "all";
      results := [];
      loading := false;
      error := None;
      selectedSkill := "";
      filteredSkills := Suggestions(skillParam.GetOr(""));
      this.url := url;
    }

    /** The input's onChange with the suggestion effect that follows a changed term. */
    method TypeTerm(text: string)
      modifies this
      ensures searchTerm == text
      ensures filteredSkills == if text != old(searchTerm) then Suggestions(text) else old(filteredSkills)
      ensures old(SuggestionsSound()) ==> SuggestionsSound()
      ensures searchType == old(searchType) && results == old(results) && loading == old(loading)
      ensures error == old(error) && selectedSkill == old(selectedSkill) && url == old(url)
    {
      if text != searchTerm {
        searchTerm := text;
        filteredSkills := Suggestions(text);
      }
    }

    method SetSearchType(t: string)
      modifies this
      ensures searchType == t
      ensures searchTerm == old(searchTerm) && results == old(results) && loading == old(loading)
      ensures error == old(error) && selectedSkill == old(selectedSkill)
      ensures filteredSkills == old(filteredSkills) && url == old(url)
    {
      searchType := t;
    }

    /**
     * handleSearch. A blank term only sets the error and calls nothing.
     * Otherwise exactly one search is made, chosen by the scope; on success
     * the results are replaced and the address becomes `?skill=` and the
     * encoded term on the current path; on failure the error is set and the
     * results kept. Loading is false afterwards. The calls made are returned.
     */
    method HandleSearch(service: SkillService, pathname: string, encode: string -> string)
      returns (calls: seq<SearchCall>)
      modifies this
      ensures IsJsBlank(old(searchTerm)) ==>
        calls == [] && error == Some(BlankTermMessage) && results == old(results)
        && url == old(url) && loading == old(loading)
      ensures !IsJsBlank(old(searchTerm)) ==>
        calls == [CallFor(old(searchType), old(searchTerm))] && !loading
        && var answer := service(calls[0]);
           (answer.Some? ==> results == answer.value && error == None
                             && url == pathname + "?skill=" + encode(old(searchTerm)))
           && (answer.None? ==> results == old(results) && error == Some(SearchFailedMessage) && url == old(url))
      ensures searchTerm == old(searchTerm) && searchType == old(searchType)
      ensures selectedSkill == old(selectedSkill) && filteredSkills == old(filteredSkills)
    {
      if IsJsBlank(searchTerm) {
        error := Some(BlankTermMessage);
        return [];
      }
      loading := true;
      error := None;
      var call := CallFor(searchType, searchTerm);
      calls := [call];
      var answer := service(call);
      if answer.Some? {
        results := answer.value;
        url := pathname + "?skill=" + encode(searchTerm);
      } else {
        error := Some(SearchFailedMessage);
      }
      loading := false;
    }

    /** The effect on mount: a search when the page was opened with a non-empty `skill` parameter. */
    method SearchOnLoad(skillParam: Option<string>, service: SkillService, pathname: string, encode: string -> string)
      returns (calls: seq<SearchCall>)
      requires searchTerm == skillParam.GetOr("")
      modifies this
      ensures skillParam.GetOr("") == "" ==> calls == [] && unchanged(this)
      ensures skillParam.GetOr("") != "" && !IsJsBlank(searchTerm) ==> calls == [CallFor(searchType, searchTerm)]
    {
      calls := [];
      if skillParam.GetOr("") != "" {
        calls := HandleSearch(service, pathname, encode);
      }
    }

    /**
     * handleSkillSelect as written: term and selected skill are set and the
     * suggestions cleared, but the changed term then re-runs the suggestion
     * effect, which fills them again.
     */
    method SelectSkillAsWritten(skill: string)
      modifies this
      ensures searchTerm == skill && selectedSkill == skill
      ensures filteredSkills == if skill != old(searchTerm) then Suggestions(skill) else []
      ensures searchType == old(searchType) && results == old(results) && loading == old(loading)
      ensures error == old(error) && url == old(url)
    {
      var before := searchTerm;
      searchTerm := skill;
      selectedSkill := skill;
      filteredSkills := [];
      if skill != before {
        filteredSkills := Suggestions(skill);
      }
    }

    /**
     * handleSkillSelect as intended: the suggestion list closes. A selection
     * sets the term without the suggestion effect that typing triggers.
     */
    method SelectSkill(skill: string)
      modifies this
      ensures searchTerm == skill && selectedSkill == skill && filteredSkills == []
      ensures SuggestionsSound()
      ensures searchType == old(searchType) && results == old(results) && loading == old(loading)
      ensures error == old(error) && url == old(url)
    {
      searchTerm := skill;
      selectedSkill := skill;
      filteredSkills := [];
    }
  }

  /**
   * A suggested skill picked from a list that showed a different term comes
   * straight back as the first suggestion of its own, so the as-written
   * selection never closes the list.
   */
  lemma {:induction false} SelectionRefillsSuggestions(skill: string)
    requires skill in PredefinedSkills && !IsJsBlank(skill)
    ensures Suggestions(skill) != []
  {
    MatchesItself(skill);
    var all := MatchingSkills(PredefinedSkills, skill);
    assert skill in all;
  }

  /** For instance, after typing "Jav" and picking "Java", "Java" is suggested again. */
  lemma {:induction false} PickingJavaReopens()
    ensures Suggestions("Java") != [] && Suggestions("Java")[0] == "Java"
  {
    assert !IsJsSpace("Java"[0]);
    MatchesItself("Java");
    assert PredefinedSkills[0] == "Java";
    FirstMatchLeads(PredefinedSkills, "Java", 0);
  }
}
