/**
 * The schools page of the demo (`demo/schools`): the search and status
 * filters over the school list, the status colour and the count of active
 * schools. The school list comes from the server and is a parameter here.
 */
module Schools {
  import opened Wrappers
  import opened Text
  import Sublists

  datatype School = School(id: string, name: string, address: string, status: string)

  /** The name or the address contains the search text, ignoring case. */
  predicate MatchesSearch(school: School, searchText: string) {
    Contains(ToLower(school.name), ToLower(searchText))
    || Contains(ToLower(school.address), ToLower(searchText))
  }

  /** `!selectedStatus || school.status === selectedStatus` */
  predicate MatchesStatus(school: School, selectedStatus: Option<string>) {
    selectedStatus == None || selectedStatus == Some("") || school.status == selectedStatus.value
  }

  predicate Passes(school: School, searchText: string, selectedStatus: Option<string>) {
    MatchesSearch(school, searchText) && MatchesStatus(school, selectedStatus)
  }

  /** `filteredSchools` */
  function FilteredSchools(schools: seq<School>, searchText: string, selectedStatus: Option<string>): (r: seq<School>)
    ensures Sublists.Subsequence(r, schools)
    ensures forall k :: 0 <= k < |r| ==> r[k] in schools && Passes(r[k], searchText, selectedStatus)
    ensures forall k :: 0 <= k < |schools| && Passes(schools[k], searchText, selectedStatus) ==> schools[k] in r
    ensures forall x :: multiset(r)[x] == if Passes(x, searchText, selectedStatus) then multiset(schools)[x] else 0
  {
    Sublists.FilterMultiset((s: School) => Passes(s, searchText, selectedStatus), schools);
    Sublists.Filter((s: School) => Passes(s, searchText, selectedStatus), schools)
  }

  /** With an empty search and no status chosen every school is listed,
      in order. */
  lemma EmptyFiltersKeepAll(schools: seq<School>, selectedStatus: Option<string>)
    requires selectedStatus == None || selectedStatus == Some("")
    ensures FilteredSchools(schools, "", selectedStatus) == schools
  {
    forall k | 0 <= k < |schools|
      ensures MatchesSearch(schools[k], "")
    {
      ContainsEmpty(ToLower(schools[k].name));
    }
    Sublists.FilterAll((s: School) => Passes(s, "", selectedStatus), schools);
  }

  /** `getStatusColor(status)` */
  function StatusColor(status: string): (r: string)
    ensures r == "green" <==> status == "Active"
    ensures r == "green" || r == "orange"
  {
    if status == "Active" then "green" else "orange"
  }

  predicate IsActive(s: School) {
    s.status == "Active"
  }

  /** The "Active Schools" statistic: the schools shown green. */
  function ActiveCount(schools: seq<School>): (n: nat)
    ensures n <= |schools|
    ensures n == |Sublists.Filter(IsActive, schools)|
  {
    Sublists.CountIsFilterLength(IsActive, schools);
    Sublists.Count(IsActive, schools)
  }

  /** Each active school is shown green and counted. */
  lemma ActiveIsGreen(schools: seq<School>, k: nat)
    requires k < |schools|
    ensures StatusColor(schools[k].status) == "green" <==> schools[k] in Sublists.Filter(IsActive, schools)
  {
  }
}
