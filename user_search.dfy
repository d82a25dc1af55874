/** users/search.php: find users by a piece of their email or by their id. */
module UserSearch {
  import opened Base
  import opened Seqs
  import opened Tables
  import opened JsText

  const MinQueryLength: nat := 2
  const MaxResults: nat := 20

  /** A result row: the selected columns `id, email, created_at` and the derived
      `name`. No password column is selected, so a hit has none. */
  datatype SearchHit = SearchHit(id: int, email: string, createdAt: int, name: string)

  /** `email LIKE '%term%' OR id = 'term'`. */
  predicate Matches(u: User, term: string) {
    Occurs(term, u.email) || IntToString(u.id) == term
  }

  /** The matching rows in storage order. */
  function MatchingUsers(users: seq<User>, term: string): (r: seq<User>)
    ensures forall u :: u in r <==> u in users && Matches(u, term)
  {
    if users == [] then []
    else if Matches(users[0], term) then [users[0]] + MatchingUsers(users[1..], term)
    else MatchingUsers(users[1..], term)
  }

  /** `explode('@', $email)[0]`: the part of the email before its first '@', or
      the whole email when it has none. */
  function EmailName(email: string): (name: string)
    ensures '@' !in name
    ensures |name| <= |email| && name == email[..|name|]
    ensures |name| < |email| ==> email[|name|] == '@'
    ensures '@' !in email ==> name == email
  {
    if email == [] || email[0] == '@' then ""
    else [email[0]] + EmailName(email[1..])
  }

  function HitOf(u: User): SearchHit {
    SearchHit(u.id, u.email, u.createdAt, EmailName(u.email))
  }

  /** The endpoint; `q` is `$_GET['q']`, the empty string when absent. Without an
      ORDER BY, which 20 rows `LIMIT 20` keeps is up to MySQL; this model keeps the
      first 20 in storage order. */
  method Search(users: seq<User>, q: Option<string>) returns (r: Reply<seq<SearchHit>>)
    ensures r.Error? <==> |q.GetOr("")| < MinQueryLength
    ensures r.Error? ==> r.message == "Type at least 2 characters"
    ensures r.Success? ==> |r.data| <= MaxResults
    ensures r.Success? ==> forall h :: h in r.data ==>
      exists u :: u in users && Matches(u, q.GetOr("")) && h == HitOf(u)
    ensures var m := MatchingUsers(users, q.GetOr(""));
      r.Success? ==>
        && |r.data| == Min(|m|, MaxResults)
        && forall k :: 0 <= k < |r.data| ==> r.data[k] == HitOf(m[k])
  {
    var query := q.GetOr("");
    if |query| < MinQueryLength {
      return Error("Type at least 2 characters");
    }
    var matching := MatchingUsers(users, query);
    var rows := matching[..Min(|matching|, MaxResults)];
    var hits := HitsOf(rows);
    r := Success(hits);
    forall h | h in hits ensures exists u :: u in users && Matches(u, query) && h == HitOf(u) {
      var k :| 0 <= k < |hits| && hits[k] == h;
      assert rows[k] in matching;
    }
  }

  /** The `while ($row = $result->fetch_assoc())` loop: one hit per row, in order. */
  method HitsOf(rows: seq<User>) returns (hits: seq<SearchHit>)
    ensures |hits| == |rows|
    ensures forall k :: 0 <= k < |rows| ==> hits[k] == HitOf(rows[k])
  {
    hits := [];
    var i := 0;
    while i < |rows|
      invariant 0 <= i <= |rows|
      invariant |hits| == i
      invariant forall k :: 0 <= k < i ==> hits[k] == HitOf(rows[k])
    {
      hits := hits + [HitOf(rows[i])];
      i := i + 1;
    }
  }
}
