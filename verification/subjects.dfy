/** The two subject lists: the learning side (src/pages/ContentPage.tsx)
    and the assessment side (src/pages/AssessmentsPage.tsx). Both fetch the
    subjects once, upgrade each image address from http to https, and
    show a spinner, an error line or the cards. They differ in how they
    copy a subject: the learning side builds a fresh record of the five
    known fields, the assessment side spreads the whole object. */
module Subjects {
  import opened Basics

  const FetchFailed: string := "Failed to fetch subjects"
  const Http: string := "http://"
  const Https: string := "https://"

  /** A subject as the backend sends it. `extra` stands for whatever
      further fields the response carries beyond the five the client
      declares (src/types/content.ts). */
  datatype Subject = Subject(
    id: int,
    name: string,
    description: Option<string>,
    imageUrl: Option<string>,
    topicCount: int,
    extra: map<string, string>)

  /** `imageUrl ? imageUrl.replace('http://', 'https://') : null`. A string
      pattern makes `replace` rewrite the first occurrence only. */
  function SecureImageUrl(url: Option<string>): (r: Option<string>)
    ensures r.None? <==> !Truthy(url)
    ensures Truthy(url) && IndexOf(url.value, Http).None? ==> r == url
    ensures Truthy(url) && IndexOf(url.value, Http).Some? ==>
      var k := IndexOf(url.value, Http).value;
      r == Some(url.value[..k] + Https + url.value[k + |Http|..])
  {
    if !Truthy(url) then None
    else match IndexOf(url.value, Http)
      case None => url
      case Some(k) => Some(url.value[..k] + Https + url.value[k + |Http|..])
  }

  /** An address written with the http scheme gets the https scheme and is
      otherwise kept, even when `rest` embeds further http addresses. */
  lemma UpgradesHttpScheme(rest: string)
    ensures SecureImageUrl(Some(Http + rest)) == Some(Https + rest)
  {
    var url := Http + rest;
    assert url[..|Http|] == Http;
    assert OccursAt(url, Http, 0);
    var found := IndexOf(url, Http);
    assert found == Some(0);
    assert url[..0] + Https + url[|Http|..] == Https + rest;
  }

  /** An address with no "http://" in it, such as one already using https
      with no embedded http address, is left alone. */
  lemma KeepsAddressWithoutHttp(url: string)
    requires url != ""
    requires forall k: nat :: !OccursAt(url, Http, k)
    ensures SecureImageUrl(Some(url)) == Some(url)
  {
  }

  /** Only the first "http://" is rewritten: an http address embedded
      later in the string is left as it was. */
  lemma EmbeddedAddressKept()
    ensures SecureImageUrl(Some("http://a/http://b")) == Some("https://a/http://b")
  {
    UpgradesHttpScheme("a/http://b");
    assert Http + "a/http://b" == "http://a/http://b";
    assert Https + "a/http://b" == "https://a/http://b";
  }

  /** The learning side's projection: the five declared fields, nothing
      else. */
  function ContentSubject(s: Subject): (r: Subject)
    ensures r.id == s.id && r.name == s.name && r.description == s.description && r.topicCount == s.topicCount
    ensures r.imageUrl == SecureImageUrl(s.imageUrl)
    ensures r.extra == map[]
  {
    Subject(s.id, s.name, s.description, SecureImageUrl(s.imageUrl), s.topicCount, map[])
  }

  /** The assessment side's spread: every field kept but the image address. */
  function AssessmentSubject(s: Subject): (r: Subject)
    ensures r.imageUrl == SecureImageUrl(s.imageUrl)
    ensures r.(imageUrl := s.imageUrl) == s
  {
    s.(imageUrl := SecureImageUrl(s.imageUrl))
  }

  /** The `data.map` of either page: same length, same order, subject by
      subject. */
  function ContentSubjects(data: seq<Subject>): (r: seq<Subject>)
    ensures |r| == |data|
    ensures forall i | 0 <= i < |data| :: r[i] == ContentSubject(data[i])
  {
    seq(|data|, i requires 0 <= i < |data| => ContentSubject(data[i]))
  }

  function AssessmentSubjects(data: seq<Subject>): (r: seq<Subject>)
    ensures |r| == |data|
    ensures forall i | 0 <= i < |data| :: r[i] == AssessmentSubject(data[i])
  {
    seq(|data|, i requires 0 <= i < |data| => AssessmentSubject(data[i]))
  }

  /** The two pages agree on everything the learning side keeps. */
  lemma PagesAgreeOnDeclaredFields(data: seq<Subject>, i: int)
    requires 0 <= i < |data|
    ensures ContentSubjects(data)[i] == AssessmentSubjects(data)[i].(extra := map[])
  {
  }

  datatype SubjectsState = SubjectsState(subjects: seq<Subject>, loading: bool, error: Option<string>)

  const InitialSubjects: SubjectsState := SubjectsState([], true, None)

  /** The mount effect of either page, with the backend's answer as an
      input and the page's per-subject copy as `assessmentSide`. */
  function Fetch(s: SubjectsState, assessmentSide: bool, response: Response<seq<Subject>>): (r: SubjectsState)
    ensures !r.loading
    ensures response.Ok? && !assessmentSide ==> r == s.(subjects := ContentSubjects(response.value), loading := false)
    ensures response.Ok? && assessmentSide ==> r == s.(subjects := AssessmentSubjects(response.value), loading := false)
    ensures response.Err? ==> r == s.(loading := false, error := Some(FetchFailed))
  {
    match response
    case Ok(data) =>
      s.(subjects := if assessmentSide then AssessmentSubjects(data) else ContentSubjects(data), loading := false)
    case Err(_) => s.(error := Some(FetchFailed), loading := false)
  }

  datatype SubjectsView = Spinner | ErrorLine(message: string) | Cards(subjects: seq<Subject>)

  /** The learning side tests the error before the loading flag. */
  function ContentView(s: SubjectsState): (v: SubjectsView)
    ensures Truthy(s.error) ==> v == ErrorLine(s.error.value)
    ensures !Truthy(s.error) ==> (v == Spinner <==> s.loading)
    ensures !Truthy(s.error) && !s.loading ==> v == Cards(s.subjects)
  {
    if Truthy(s.error) then ErrorLine(s.error.value)
    else if s.loading then Spinner
    else Cards(s.subjects)
  }

  /** The assessment side tests the loading flag first. */
  function AssessmentsView(s: SubjectsState): (v: SubjectsView)
    ensures s.loading ==> v == Spinner
    ensures !s.loading ==> (v.ErrorLine? <==> Truthy(s.error))
    ensures !s.loading && Truthy(s.error) ==> v == ErrorLine(s.error.value)
    ensures !s.loading && !Truthy(s.error) ==> v == Cards(s.subjects)
  {
    if s.loading then Spinner
    else if Truthy(s.error) then ErrorLine(s.error.value)
    else Cards(s.subjects)
  }

  /** The two orders never disagree on the states the pages reach: before
      the fetch settles there is no error, and after it the flag is off. */
  lemma ViewsAgreeOnReachableStates(assessmentSide: bool, response: Response<seq<Subject>>)
    ensures ContentView(InitialSubjects) == AssessmentsView(InitialSubjects) == Spinner
    ensures var r := Fetch(InitialSubjects, assessmentSide, response);
      ContentView(r) == AssessmentsView(r)
    ensures var r := Fetch(InitialSubjects, assessmentSide, response);
      response.Err? <==> ContentView(r) == ErrorLine(FetchFailed)
  {
  }
}
