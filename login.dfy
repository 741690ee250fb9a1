/**
 * Credential checks of the login window. The three record collections
 * (staff, private customers, corporate customers) are dictionaries in the
 * Python code, visited in insertion order; here they are sequences in that
 * order.
 */
module LoginView {
  import opened Wrappers
  import opened Model

  /** A record's username and password. */
  datatype Credentials = Credentials(username: string, password: string)

  /** The credentials of staff records, in order. */
  function StaffCredentials(staff: seq<Staff>): (r: seq<Credentials>)
    ensures |r| == |staff|
    ensures forall i :: 0 <= i < |staff| ==> r[i] == Credentials(staff[i].username, staff[i].password)
  {
    seq(|staff|, i requires 0 <= i < |staff| => Credentials(staff[i].username, staff[i].password))
  }

  /** The credentials of customer records; the twin of `StaffCredentials`
      for the other record class. */
  function CustomerCredentials(customers: seq<Customer>): (r: seq<Credentials>)
    ensures |r| == |customers|
    ensures forall i :: 0 <= i < |customers| ==> r[i] == Credentials(customers[i].username, customers[i].password)
  {
    seq(|customers|, i requires 0 <= i < |customers| => Credentials(customers[i].username, customers[i].password))
  }

  /** The position of the first record whose username and password both
      equal the given ones. */
  function FirstMatch(records: seq<Credentials>, username: string, password: string): (r: Option<nat>)
    ensures r.Some? ==> r.value < |records| && records[r.value] == Credentials(username, password)
    ensures r.Some? ==> forall j :: 0 <= j < r.value ==> records[j] != Credentials(username, password)
    ensures r.None? <==> Credentials(username, password) !in records
  {
    if records == [] then None
    else if records[0].username == username && records[0].password == password then Some(0)
    else
      match FirstMatch(records[1..], username, password)
      case None =>
        assert records == [records[0]] + records[1..];
        None
      case Some(i) => Some(i + 1)
  }

  /** `verify_login` returns a staff member with type "staff", a customer
      with type "customer", or `(None, None)`. */
  datatype LoginResult = StaffLogin(staff: Staff) | CustomerLogin(customer: Customer) | NoLogin

  /**
   * Staff are examined first, then private customers, then corporate
   * customers; within each collection the first record whose username and
   * password both match is returned.
   */
  function VerifyLogin(staff: seq<Staff>, privates: seq<Customer>, corporates: seq<Customer>,
                       username: string, password: string): (r: LoginResult)
    ensures r.StaffLogin? ==> r.staff in staff && r.staff.username == username && r.staff.password == password
    ensures r.CustomerLogin? ==>
      (r.customer in privates || r.customer in corporates) && r.customer.username == username && r.customer.password == password
    ensures r.NoLogin? <==> Credentials(username, password) !in StaffCredentials(staff) + CustomerCredentials(privates) + CustomerCredentials(corporates)
  {
    match FirstMatch(StaffCredentials(staff), username, password)
    case Some(i) => StaffLogin(staff[i])
    case None =>
      match FirstMatch(CustomerCredentials(privates), username, password)
      case Some(i) => CustomerLogin(privates[i])
      case None =>
        match FirstMatch(CustomerCredentials(corporates), username, password)
        case Some(i) => CustomerLogin(corporates[i])
        case None => NoLogin
  }

  /** A staff member with matching credentials wins over any customer, and
      the earliest such staff member is the one returned. */
  lemma StaffFirst(staff: seq<Staff>, privates: seq<Customer>, corporates: seq<Customer>,
                   username: string, password: string, k: nat)
    requires k < |staff| && staff[k].username == username && staff[k].password == password
    ensures VerifyLogin(staff, privates, corporates, username, password).StaffLogin?
    ensures exists i :: 0 <= i <= k && VerifyLogin(staff, privates, corporates, username, password).staff == staff[i]
  {
    var creds := StaffCredentials(staff);
    assert creds[k] == Credentials(username, password);
    var i := FirstMatch(creds, username, password).value;
    assert i <= k;
  }

  /** Without a matching staff member, a matching private customer wins over
      any corporate customer, and the earliest such customer is the one
      returned. */
  lemma PrivateBeforeCorporate(staff: seq<Staff>, privates: seq<Customer>, corporates: seq<Customer>,
                               username: string, password: string, k: nat)
    requires Credentials(username, password) !in StaffCredentials(staff)
    requires k < |privates| && privates[k].username == username && privates[k].password == password
    ensures VerifyLogin(staff, privates, corporates, username, password).CustomerLogin?
    ensures exists i :: 0 <= i <= k && VerifyLogin(staff, privates, corporates, username, password).customer == privates[i]
  {
    var creds := CustomerCredentials(privates);
    assert creds[k] == Credentials(username, password);
    var i := FirstMatch(creds, username, password).value;
    assert i <= k;
  }

  /** With no matching staff member or private customer, the earliest
      matching corporate customer is the one returned. */
  lemma CorporateLast(staff: seq<Staff>, privates: seq<Customer>, corporates: seq<Customer>,
                      username: string, password: string, k: nat)
    requires Credentials(username, password) !in StaffCredentials(staff)
    requires Credentials(username, password) !in CustomerCredentials(privates)
    requires k < |corporates| && corporates[k].username == username && corporates[k].password == password
    ensures VerifyLogin(staff, privates, corporates, username, password).CustomerLogin?
    ensures exists i :: 0 <= i <= k && VerifyLogin(staff, privates, corporates, username, password).customer == corporates[i]
  {
    var creds := CustomerCredentials(corporates);
    assert creds[k] == Credentials(username, password);
    var i := FirstMatch(creds, username, password).value;
    assert i <= k;
  }

  // ---------------------------------------------------------------- user information

  /** `f"{username}, {password}"`. */
  function UserLine(c: Credentials): string {
    c.username + ", " + c.password
  }

  function UserLines(records: seq<Credentials>): (r: seq<string>)
    ensures |r| == |records|
    ensures forall i :: 0 <= i < |records| ==> r[i] == UserLine(records[i])
  {
    seq(|records|, i requires 0 <= i < |records| => UserLine(records[i]))
  }

  /** The whole list of user lines: staff, then private, then corporate. */
  function AllUserLines(staff: seq<Staff>, privates: seq<Customer>, corporates: seq<Customer>): seq<string> {
    UserLines(StaffCredentials(staff)) + UserLines(CustomerCredentials(privates)) + UserLines(CustomerCredentials(corporates))
  }

  /** `get_user_info`: one line per record, appended in three loops. */
  method GetUserInfo(staff: seq<Staff>, privates: seq<Customer>, corporates: seq<Customer>) returns (info: seq<string>)
    ensures info == AllUserLines(staff, privates, corporates)
    ensures |info| == |staff| + |privates| + |corporates|
  {
    info := [];
    for i := 0 to |staff|
      invariant info == UserLines(StaffCredentials(staff[..i]))
    {
      assert StaffCredentials(staff[..i + 1]) == StaffCredentials(staff[..i]) + [Credentials(staff[i].username, staff[i].password)];
      info := info + [staff[i].username + ", " + staff[i].password];
    }
    assert staff[..|staff|] == staff;
    ghost var head := info;
    for i := 0 to |privates|
      invariant info == head + UserLines(CustomerCredentials(privates[..i]))
    {
      assert CustomerCredentials(privates[..i + 1]) == CustomerCredentials(privates[..i]) + [Credentials(privates[i].username, privates[i].password)];
      info := info + [privates[i].username + ", " + privates[i].password];
    }
    assert privates[..|privates|] == privates;
    head := info;
    for i := 0 to |corporates|
      invariant info == head + UserLines(CustomerCredentials(corporates[..i]))
    {
      assert CustomerCredentials(corporates[..i + 1]) == CustomerCredentials(corporates[..i]) + [Credentials(corporates[i].username, corporates[i].password)];
      info := info + [corporates[i].username + ", " + corporates[i].password];
    }
    assert corporates[..|corporates|] == corporates;
  }

  /** Whoever `verify_login` lets in has their "username, password" line in
      the user information list. */
  lemma VerifiedUserListed(staff: seq<Staff>, privates: seq<Customer>, corporates: seq<Customer>,
                           username: string, password: string)
    requires !VerifyLogin(staff, privates, corporates, username, password).NoLogin?
    ensures UserLine(Credentials(username, password)) in AllUserLines(staff, privates, corporates)
  {
    var creds := StaffCredentials(staff) + CustomerCredentials(privates) + CustomerCredentials(corporates);
    var c := Credentials(username, password);
    assert c in creds;
    var k :| 0 <= k < |creds| && creds[k] == c;
    var lines := AllUserLines(staff, privates, corporates);
    assert lines == UserLines(creds) by {
      assert |lines| == |UserLines(creds)|;
      forall i | 0 <= i < |lines| ensures lines[i] == UserLines(creds)[i] {
        if i < |staff| {
        } else if i < |staff| + |privates| {
        } else {
        }
      }
    }
    assert lines[k] == UserLine(c);
  }
}
