/** list_organization_users: page through each candidate endpoint, keep the first that yields anyone. */
module Directory {
  import opened Prelude
  import opened Checkpoint

  const LIMIT: nat := 100

  /** A raw directory entry: the address fields in order of preference ("" when absent), and the rest. */
  datatype Record = Record(addresses: seq<string>, rest: string)

  datatype User = User(email: string, rest: string)

  /** ClientError is a ZohoClientError; any other exception leaves the method. */
  datatype Response = Records(records: seq<Record>) | Single(record: Record) | ClientError | OtherError

  /** The answers to start = 1, 101, 201, ...; further pages are empty. */
  type Endpoint = seq<Response>

  datatype Outcome = Users(users: seq<User>) | Escaped

  function FirstNonEmpty(addresses: seq<string>): string {
    if addresses == [] then "" else if addresses[0] != "" then addresses[0] else FirstNonEmpty(addresses[1..])
  }

  function Normalise(r: Record): Option<User> {
    var email := Norm(FirstNonEmpty(r.addresses));
    if email == "" || '@' !in email then None else Some(User(email, r.rest))
  }

  /** The order-preserving normalised filter. */
  function Valid(records: seq<Record>): seq<User> {
    if records == [] then []
    else (if Normalise(records[0]).Some? then [Normalise(records[0]).value] else []) + Valid(records[1..])
  }

  lemma {:induction false} ValidAppend(a: seq<Record>, b: seq<Record>)
    ensures Valid(a + b) == Valid(a) + Valid(b)
  {
    if a == [] {
      assert a + b == b;
    } else {
      var first := if Normalise(a[0]).Some? then [Normalise(a[0]).value] else [];
      assert (a + b)[0] == a[0] && (a + b)[1..] == a[1..] + b;
      ValidAppend(a[1..], b);
      assert first + (Valid(a[1..]) + Valid(b)) == first + Valid(a[1..]) + Valid(b);
    }
  }

  /** The filter keeps exactly the users of valid records, each with a normalised address that has an '@'. */
  lemma {:induction false} ValidMembers(records: seq<Record>, u: User)
    ensures u in Valid(records) <==> exists r | r in records :: Normalise(r) == Some(u)
    ensures u in Valid(records) ==> '@' in u.email && Norm(u.email) == u.email
    decreases |records|
  {
    if records != [] {
      ValidMembers(records[1..], u);
      NormIsNormal(FirstNonEmpty(records[0].addresses));
      assert forall r :: r in records <==> r == records[0] || r in records[1..];
      if Normalise(records[0]) == Some(u) { assert records[0] in records; }
    }
  }

  lemma {:induction false} FirstNonEmptyAt(addresses: seq<string>, i: nat)
    requires i <= |addresses| && (forall k | 0 <= k < i :: addresses[k] == "") && (i < |addresses| ==> addresses[i] != "")
    ensures FirstNonEmpty(addresses) == if i < |addresses| then addresses[i] else ""
  {
    if i > 0 { FirstNonEmptyAt(addresses[1..], i - 1); }
  }

  /**
   One record gives one user, under the normal form of the first address field that is not empty (field
   `i`, if any), or none if that has no '@'.
   */
  lemma ValidOne(r: Record, i: nat)
    requires i <= |r.addresses| && (forall k | 0 <= k < i :: r.addresses[k] == "")
    requires i < |r.addresses| ==> r.addresses[i] != ""
    ensures Valid([r]) == if i < |r.addresses| && '@' in Norm(r.addresses[i])
                          then [User(Norm(r.addresses[i]), r.rest)] else []
  {
    FirstNonEmptyAt(r.addresses, i);
    assert Valid([r][1..]) == [] && Norm("") == "";
  }

  // ---------------------------------------------------------------- an endpoint's whole directory

  datatype Directory = Whole(records: seq<Record>) | Failed | Broken

  /** What paging through an endpoint to its end gives. */
  function Walk(ep: Endpoint): Directory {
    if ep == [] then Whole([])
    else
      match ep[0]
      case ClientError => Failed
      case OtherError => Broken
      case Single(r) => Whole([r])
      case Records(records) =>
        if |records| < LIMIT then Whole(records)
        else
          Then(records, Walk(ep[1..]))
  }

  /** The first `j` answers are full pages, so the loop gets as far as the next one. */
  predicate FullPages(ep: Endpoint, j: nat) {
    j <= |ep| && forall i | 0 <= i < j :: ep[i].Records? && |ep[i].records| >= 100
  }

  /** What the first `j` pages bring. */
  function Gathered(ep: Endpoint, j: nat): seq<Record>
    requires FullPages(ep, j)
  {
    if j == 0 then [] else Gathered(ep, j - 1) + ep[j - 1].records
  }

  lemma {:induction false} GatheredFirst(ep: Endpoint, j: nat)
    requires FullPages(ep, j) && j > 0
    ensures FullPages(ep[1..], j - 1) && Gathered(ep, j) == ep[0].records + Gathered(ep[1..], j - 1)
  {
    if j > 1 {
      GatheredFirst(ep, j - 1);
      assert ep[1..][j - 2] == ep[j - 1];
    }
  }

  /**
   After `j` full pages the next answer decides: an error of the client drops everything gathered, any
   other exception leaves the method, and a single record, a short page or the end completes it.
   */
  lemma {:induction false} WalkMeans(ep: Endpoint, j: nat)
    requires FullPages(ep, j)
    ensures j == |ep| ==> Walk(ep) == Whole(Gathered(ep, j))
    ensures j < |ep| && ep[j].ClientError? ==> Walk(ep) == Failed && Passed(ep)
    ensures j < |ep| && ep[j].OtherError? ==> Walk(ep) == Broken && !Passed(ep)
    ensures j < |ep| && ep[j].Single? ==> Walk(ep) == Whole(Gathered(ep, j) + [ep[j].record])
    ensures j < |ep| && ep[j].Records? && |ep[j].records| < 100 ==> Walk(ep) == Whole(Gathered(ep, j) + ep[j].records)
    ensures Walk(ep).Whole? ==> (Passed(ep) <==> Valid(Walk(ep).records) == [])
  {
    if j > 0 {
      GatheredFirst(ep, j);
      WalkMeans(ep[1..], j - 1);
      assert j < |ep| ==> ep[1..][j - 1] == ep[j];
      assert Walk(ep) == Then(ep[0].records, Walk(ep[1..]));
      if j < |ep| && ep[j].Single? { Assoc(ep[0].records, Gathered(ep[1..], j - 1), [ep[j].record]); }
      if j < |ep| && ep[j].Records? { Assoc(ep[0].records, Gathered(ep[1..], j - 1), ep[j].records); }
    } else if ep != [] && (ep[0].Single? || ep[0].Records?) {
      assert forall more: seq<Record> :: [] + more == more;
    }
  }

  /** There always is an answer that decides, or the end. */
  lemma {:induction false} PagesEnd(ep: Endpoint) returns (j: nat)
    ensures FullPages(ep, j) && (j < |ep| && ep[j].Records? ==> |ep[j].records| < 100)
  {
    j := 0;
    if ep != [] && ep[0].Records? && |ep[0].records| >= 100 {
      var j' := PagesEnd(ep[1..]);
      j := j' + 1;
      assert forall i | 1 <= i < j :: ep[i] == ep[1..][i - 1];
      assert j < |ep| ==> ep[j] == ep[1..][j - 1];
    }
  }

  lemma Assoc(a: seq<Record>, b: seq<Record>, c: seq<Record>)
    ensures a + (b + c) == (a + b) + c
  {
  }

  /** An endpoint that serves a directory in slices. */
  function Slices(all: seq<Record>): Endpoint
    decreases |all|
  {
    if |all| < LIMIT then [Records(all)] else [Records(all[..LIMIT])] + Slices(all[LIMIT..])
  }

  /** Over exact slices the walk gives the directory, no more and no less. */
  lemma {:induction false} WalkOfSlices(all: seq<Record>)
    ensures Walk(Slices(all)) == Whole(all)
    decreases |all|
  {
    if |all| >= LIMIT {
      WalkOfSlices(all[LIMIT..]);
      assert Slices(all)[1..] == Slices(all[LIMIT..]);
      assert all[..LIMIT] + all[LIMIT..] == all;
    }
  }

  /** The endpoint answers without yielding anyone, so the next one is tried. */
  predicate Passed(ep: Endpoint) {
    Walk(ep).Failed? || (Walk(ep).Whole? && Valid(Walk(ep).records) == [])
  }

  method ListOrganizationUsers(endpoints: seq<Endpoint>) returns (r: Outcome)
    // either nobody, and then no endpoint had anyone; or all of the first endpoint that has someone
    ensures r == Users([]) <==> forall i | 0 <= i < |endpoints| :: Passed(endpoints[i])
    ensures r.Users? && r.users != [] ==>
              exists j | 0 <= j < |endpoints| ::
                && (forall i | 0 <= i < j :: Passed(endpoints[i]))
                && Walk(endpoints[j]).Whole? && r.users == Valid(Walk(endpoints[j]).records)
    ensures r.Escaped? ==>
              exists j | 0 <= j < |endpoints| ::
                (forall i | 0 <= i < j :: Passed(endpoints[i])) && Walk(endpoints[j]).Broken?
  {
    var e := 0;
    while e < |endpoints|
      invariant e <= |endpoints| && forall i | 0 <= i < e :: Passed(endpoints[i])
    {
      var found := PageThrough(endpoints[e]);
      match found {
        case Escaped => return Escaped;
        case Users(users) => if users != [] { return found; }
      }
      e := e + 1;
    }
    return Users([]);
  }

  /** The paging loop over one endpoint; an endpoint that fails keeps nothing of what it had collected. */
  method PageThrough(ep: Endpoint) returns (found: Outcome)
    ensures found == match Walk(ep)
                     case Whole(records) => Users(Valid(records))
                     case Failed => Users([])
                     case Broken => Escaped
    ensures forall j: nat | FullPages(ep, j) ::
              && (j == |ep| ==> found == Users(Valid(Gathered(ep, j))))
              && (j < |ep| && ep[j].ClientError? ==> found == Users([]))
              && (j < |ep| && ep[j].OtherError? ==> found == Escaped)
              && (j < |ep| && ep[j].Single? ==> found == Users(Valid(Gathered(ep, j) + [ep[j].record])))
              && (j < |ep| && ep[j].Records? && |ep[j].records| < 100 ==>
                    found == Users(Valid(Gathered(ep, j) + ep[j].records)))
  {
    forall j: nat | FullPages(ep, j) { WalkMeans(ep, j); }
    var collected: seq<User> := [];
    var page := 0;
    ghost var seen: seq<Record> := [];
    assert ep[0..] == ep;
    while true
      invariant page <= |ep| && collected == Valid(seen)
      invariant Walk(ep) == Then(seen, Walk(ep[page..]))
      decreases |ep| - page
    {
      if page == |ep| {
        ThenThen(seen, [], Whole([]));
        return Users(collected);
      }
      var resp := ep[page];
      assert ep[page..][1..] == ep[page + 1..];
      if resp.ClientError? { return Users([]); }
      if resp.OtherError? { return Escaped; }
      var records := if resp.Single? then [resp.record] else resp.records;
      var users := Collect(records);
      ValidAppend(seen, records);
      ThenThen(seen, records, Walk(ep[page + 1..]));
      collected := collected + users;
      seen := seen + records;
      if |records| < LIMIT { return Users(collected); }
      page := page + 1;
    }
  }

  /** What comes before, then the rest of the walk. */
  function Then(before: seq<Record>, rest: Directory): Directory {
    match rest
    case Whole(more) => Whole(before + more)
    case other => other
  }

  lemma ThenThen(a: seq<Record>, b: seq<Record>, rest: Directory)
    ensures Then(a, Then(b, rest)) == Then(a + b, rest)
    ensures Then([], rest) == rest && Then(a, Whole([])) == Whole(a)
  {
  }

  /** The inner loop over a page. */
  method Collect(records: seq<Record>) returns (users: seq<User>)
    ensures users == Valid(records)
  {
    users := [];
    var i := 0;
    while i < |records|
      invariant i <= |records| && users == Valid(records[..i])
    {
      ValidAppend(records[..i], [records[i]]);
      assert records[..i] + [records[i]] == records[..i + 1];
      assert [records[i]][1..] == [];
      var u := Normalise(records[i]);
      if u.Some? { users := users + [u.value]; }
      i := i + 1;
    }
    assert records[..i] == records;
  }
}
