/**
 * The company controller: it holds the catalog tables read by the two
 * catalog readers and looks a logged-in user up by username. The readers are
 * the ones of `Catalog`, which the controller's own copies match line for
 * line; what the controller adds is where their results are stored.
 */
module Controller {
  import opened Wrappers
  import opened Model
  import Catalog

  /** `self.private_customers` is a dictionary of customers until a
      "private" lookup replaces it with the one customer found. */
  datatype PrivateSlot = Records(customers: seq<Customer>) | Single(customer: Customer)

  /** The record held in `self.user`. */
  datatype UserRef = StaffUser(staff: Staff) | CustomerUser(customer: Customer)

  /** A "private" lookup on a slot that no longer holds a dictionary fails
      on `.values()`. */
  datatype LookupError = AttributeError

  /** The usernames of staff records, in order. */
  function StaffNames(staff: seq<Staff>): (r: seq<string>)
    ensures |r| == |staff| && forall i :: 0 <= i < |staff| ==> r[i] == staff[i].username
  {
    seq(|staff|, i requires 0 <= i < |staff| => staff[i].username)
  }

  /** The usernames of customer records; the twin of `StaffNames` for the
      other record class. */
  function CustomerNames(customers: seq<Customer>): (r: seq<string>)
    ensures |r| == |customers| && forall i :: 0 <= i < |customers| ==> r[i] == customers[i].username
  {
    seq(|customers|, i requires 0 <= i < |customers| => customers[i].username)
  }

  lemma StaffNamesSnoc(staff: seq<Staff>, k: nat)
    requires k < |staff|
    ensures StaffNames(staff[..k + 1]) == StaffNames(staff[..k]) + [staff[k].username]
  {
  }

  lemma CustomerNamesSnoc(customers: seq<Customer>, k: nat)
    requires k < |customers|
    ensures CustomerNames(customers[..k + 1]) == CustomerNames(customers[..k]) + [customers[k].username]
  {
  }

  /** The position of the last name equal to `username`. */
  function LastMatch(names: seq<string>, username: string): (r: Option<nat>)
    ensures r.Some? ==> r.value < |names| && names[r.value] == username
    ensures r.Some? ==> forall j :: r.value < j < |names| ==> names[j] != username
    ensures r.None? <==> username !in names
  {
    if names == [] then None
    else if names[|names| - 1] == username then Some(|names| - 1)
    else
      match LastMatch(names[..|names| - 1], username)
      case None =>
        assert names == names[..|names| - 1] + [names[|names| - 1]];
        None
      case Some(i) => Some(i)
  }

  lemma LastMatchSnoc(names: seq<string>, name: string, username: string)
    ensures LastMatch(names + [name], username) ==
      if name == username then Some(|names|) else LastMatch(names, username)
  {
    assert (names + [name])[..|names|] == names;
  }

  /** The user after a staff lookup: the last staff member with the name, or
      the current user when there is none. */
  function StaffLookup(staff: seq<Staff>, username: string, current: Option<UserRef>): Option<UserRef> {
    match LastMatch(StaffNames(staff), username)
    case Some(i) => Some(StaffUser(staff[i]))
    case None => current
  }

  /** The user after a customer lookup: the last customer with the name, or
      the current user when there is none. */
  function CustomerLookup(customers: seq<Customer>, username: string, current: Option<UserRef>): Option<UserRef> {
    match LastMatch(CustomerNames(customers), username)
    case Some(i) => Some(CustomerUser(customers[i]))
    case None => current
  }

  /** The private slot after a private lookup: the last private customer
      with the name alone, or the current slot when there is none. */
  function PrivateLookup(customers: seq<Customer>, username: string, current: PrivateSlot): PrivateSlot {
    match LastMatch(CustomerNames(customers), username)
    case Some(i) => Single(customers[i])
    case None => current
  }

  /** A staff lookup picks the last record with the username, and keeps the
      current user when no record matches. */
  lemma StaffLookupLast(staff: seq<Staff>, username: string, current: Option<UserRef>)
    ensures forall k :: 0 <= k < |staff| && staff[k].username == username ==>
      exists i :: k <= i < |staff| && StaffLookup(staff, username, current) == Some(StaffUser(staff[i])) &&
                staff[i].username == username && forall j :: i < j < |staff| ==> staff[j].username != username
    ensures (forall k :: 0 <= k < |staff| ==> staff[k].username != username) ==>
      StaffLookup(staff, username, current) == current
  {
    var names := StaffNames(staff);
    forall k | 0 <= k < |staff| && staff[k].username == username
      ensures exists i :: k <= i < |staff| && StaffLookup(staff, username, current) == Some(StaffUser(staff[i])) &&
                staff[i].username == username && forall j :: i < j < |staff| ==> staff[j].username != username
    {
      assert names[k] == username;
      var i := LastMatch(names, username).value;
      assert k <= i;
    }
    if forall k :: 0 <= k < |staff| ==> staff[k].username != username {
      assert username !in names;
    }
  }

  /** A customer lookup picks the last record with the username, and keeps
      the current user when no record matches. */
  lemma CustomerLookupLast(customers: seq<Customer>, username: string, current: Option<UserRef>)
    ensures forall k :: 0 <= k < |customers| && customers[k].username == username ==>
      exists i :: k <= i < |customers| && CustomerLookup(customers, username, current) == Some(CustomerUser(customers[i])) &&
                customers[i].username == username && forall j :: i < j < |customers| ==> customers[j].username != username
    ensures (forall k :: 0 <= k < |customers| ==> customers[k].username != username) ==>
      CustomerLookup(customers, username, current) == current
  {
    var names := CustomerNames(customers);
    forall k | 0 <= k < |customers| && customers[k].username == username
      ensures exists i :: k <= i < |customers| && CustomerLookup(customers, username, current) == Some(CustomerUser(customers[i])) &&
                customers[i].username == username && forall j :: i < j < |customers| ==> customers[j].username != username
    {
      assert names[k] == username;
      var i := LastMatch(names, username).value;
      assert k <= i;
    }
    if forall k :: 0 <= k < |customers| ==> customers[k].username != username {
      assert username !in names;
    }
  }

  class Company {
    var veggies: Catalog.VeggieTables
    var boxes: Catalog.BoxTemplates
    var staffMembers: seq<Staff>
    var privateCustomers: PrivateSlot
    var corporateCustomers: seq<Customer>
    var user: Option<UserRef>

    /** A controller over the given records, with empty catalog tables and no user. */
    constructor (staffMembers: seq<Staff>, privateCustomers: seq<Customer>, corporateCustomers: seq<Customer>)
      ensures this.staffMembers == staffMembers && this.privateCustomers == Records(privateCustomers)
      ensures this.corporateCustomers == corporateCustomers && user.None?
      ensures veggies == Catalog.NoVeggies && boxes == Catalog.NoBoxes
    {
      this.staffMembers := staffMembers;
      this.privateCustomers := Records(privateCustomers);
      this.corporateCustomers := corporateCustomers;
      user := None;
      veggies := Catalog.NoVeggies;
      boxes := Catalog.NoBoxes;
    }

    /**
     * `_parse_veggies`: a missing file leaves the tables as they were; any
     * other run replaces them with what the lines give, so they depend on the
     * lines alone and a second run on the same lines changes nothing.
     */
    method ParseVeggies(fileExists: bool, lines: seq<string>) returns (failure: Option<Catalog.CatalogError>)
      modifies this`veggies
      ensures !fileExists ==> failure == Some(Catalog.FileNotFound) && veggies == old(veggies)
      ensures fileExists ==> veggies == Catalog.LoadVeggies(lines).tables && failure == Catalog.LoadVeggies(lines).failure
    {
      var r := Catalog.ParseVeggies(fileExists, lines);
      failure := r.failure;
      if fileExists {
        veggies := r.tables;
      }
    }

    /** `_parse_premadeboxes`, with the same reload behaviour. */
    method ParseBoxes(fileExists: bool, lines: seq<string>) returns (failure: Option<Catalog.CatalogError>)
      modifies this`boxes
      ensures !fileExists ==> failure == Some(Catalog.FileNotFound) && boxes == old(boxes)
      ensures fileExists ==> boxes == Catalog.LoadBoxes(lines).boxes && failure == Catalog.LoadBoxes(lines).failure
    {
      var r := Catalog.ParseBoxes(fileExists, lines);
      failure := r.failure;
      if fileExists {
        boxes := r.boxes;
      }
    }

    /** The body of `Company.__init__`: the vegetables, then the boxes; an
        error in the first reader stops before the second. */
    method Init(vegExists: bool, vegLines: seq<string>, boxExists: bool, boxLines: seq<string>)
      returns (failure: Option<Catalog.CatalogError>)
      modifies this`veggies, this`boxes
      ensures vegExists ==> veggies == Catalog.LoadVeggies(vegLines).tables
      ensures !vegExists ==> veggies == old(veggies)
      ensures !vegExists ==> failure == Some(Catalog.FileNotFound) && boxes == old(boxes)
      ensures vegExists && Catalog.LoadVeggies(vegLines).failure.Some? ==>
        failure == Catalog.LoadVeggies(vegLines).failure && boxes == old(boxes)
      ensures vegExists && Catalog.LoadVeggies(vegLines).failure.None? && boxExists ==>
        boxes == Catalog.LoadBoxes(boxLines).boxes && failure == Catalog.LoadBoxes(boxLines).failure
      ensures vegExists && Catalog.LoadVeggies(vegLines).failure.None? && !boxExists ==>
        boxes == old(boxes) && failure == Some(Catalog.FileNotFound)
    {
      failure := ParseVeggies(vegExists, vegLines);
      if failure.None? {
        failure := ParseBoxes(boxExists, boxLines);
      }
    }

    /**
     * `get_user`. For "staff" and "corporate" every matching record is
     * assigned in turn, so the user ends as the last match (unchanged when
     * none matches). For "private" the match is assigned to the private
     * customer slot instead of the user; once that has happened the slot no
     * longer holds a dictionary and a further "private" lookup fails. Any
     * other user type changes nothing.
     */
    method GetUser(username: string, userType: string) returns (err: Option<LookupError>)
      modifies this`user, this`privateCustomers
      ensures userType == "staff" ==>
        user == StaffLookup(staffMembers, username, old(user)) && privateCustomers == old(privateCustomers)
      ensures userType == "corporate" ==>
        user == CustomerLookup(corporateCustomers, username, old(user)) && privateCustomers == old(privateCustomers)
      ensures userType == "private" && old(privateCustomers).Records? ==>
        privateCustomers == PrivateLookup(old(privateCustomers).customers, username, old(privateCustomers))
      ensures userType == "private" ==> user == old(user)
      ensures err.Some? <==> userType == "private" && old(privateCustomers).Single?
      ensures err.Some? ==> privateCustomers == old(privateCustomers)
      ensures userType !in {"staff", "private", "corporate"} ==>
        user == old(user) && privateCustomers == old(privateCustomers)
    {
      err := None;
      assert "private"[0] != "staff"[0] && "private"[0] != "corporate"[0] && "staff"[0] != "corporate"[0];
      if userType == "staff" {
        FindStaff(username);
      }
      if userType == "private" {
        if privateCustomers.Single? {
          err := Some(AttributeError);
        } else {
          FindPrivate(username);
        }
      }
      if userType == "corporate" {
        FindCustomer(corporateCustomers, username);
      }
    }

    /** The staff loop of `get_user`, with no `break`. */
    method FindStaff(username: string)
      modifies this`user
      ensures user == StaffLookup(staffMembers, username, old(user))
    {
      var staff := staffMembers;
      for k := 0 to |staff|
        invariant user == StaffLookup(staff[..k], username, old(user))
      {
        StaffNamesSnoc(staff, k);
        LastMatchSnoc(StaffNames(staff[..k]), staff[k].username, username);
        if staff[k].username == username {
          user := Some(StaffUser(staff[k]));
        }
      }
      assert staff[..|staff|] == staff;
    }

    /** The private-customer loop: it goes on over the original dictionary
        after the slot has been replaced. */
    method FindPrivate(username: string)
      requires privateCustomers.Records?
      modifies this`privateCustomers
      ensures privateCustomers == PrivateLookup(old(privateCustomers).customers, username, old(privateCustomers))
    {
      var records := privateCustomers.customers;
      for k := 0 to |records|
        invariant privateCustomers == PrivateLookup(records[..k], username, old(privateCustomers))
      {
        CustomerNamesSnoc(records, k);
        LastMatchSnoc(CustomerNames(records[..k]), records[k].username, username);
        if records[k].username == username {
          privateCustomers := Single(records[k]);
        }
      }
      assert records[..|records|] == records;
    }

    /** A customer loop of `get_user` that assigns the user, with no `break`. */
    method FindCustomer(records: seq<Customer>, username: string)
      modifies this`user
      ensures user == CustomerLookup(records, username, old(user))
    {
      for k := 0 to |records|
        invariant user == CustomerLookup(records[..k], username, old(user))
      {
        CustomerNamesSnoc(records, k);
        LastMatchSnoc(CustomerNames(records[..k]), records[k].username, username);
        if records[k].username == username {
          user := Some(CustomerUser(records[k]));
        }
      }
      assert records[..|records|] == records;
    }

    /**
     * `get_user` with the "private" branch assigning the match to the user,
     * as the other two branches do; the private customer records stay in
     * place, so the lookup can be repeated.
     */
    method GetUserIntended(username: string, userType: string) returns (err: Option<LookupError>)
      modifies this`user
      ensures userType == "staff" ==> user == StaffLookup(staffMembers, username, old(user))
      ensures userType == "corporate" ==> user == CustomerLookup(corporateCustomers, username, old(user))
      ensures userType == "private" && privateCustomers.Records? ==>
        user == CustomerLookup(privateCustomers.customers, username, old(user))
      ensures err.Some? <==> userType == "private" && privateCustomers.Single?
      ensures err.Some? ==> user == old(user)
      ensures userType !in {"staff", "private", "corporate"} ==> user == old(user)
    {
      err := None;
      assert "private"[0] != "staff"[0] && "private"[0] != "corporate"[0] && "staff"[0] != "corporate"[0];
      if userType == "staff" {
        FindStaff(username);
      }
      if userType == "private" {
        if privateCustomers.Single? {
          err := Some(AttributeError);
        } else {
          FindCustomer(privateCustomers.customers, username);
        }
      }
      if userType == "corporate" {
        FindCustomer(corporateCustomers, username);
      }
    }
  }

  /** As written: a private customer looked up twice is never made the user,
      and the second lookup fails. */
  method PrivateLookupAsWritten(c: Customer) returns (user: Option<UserRef>, first: Option<LookupError>, second: Option<LookupError>)
    ensures user.None? && first.None? && second == Some(AttributeError)
  {
    var company := new Company([], [c], []);
    first := company.GetUser(c.username, "private");
    assert CustomerNames([c]) == [c.username];
    assert company.privateCustomers == Single(c);
    second := company.GetUser(c.username, "private");
    assert second.Some?;
    assert second.value == AttributeError;
    user := company.user;
  }

  /** As intended: the same two lookups make the customer the user and both succeed. */
  method PrivateLookupIntended(c: Customer) returns (user: Option<UserRef>, first: Option<LookupError>, second: Option<LookupError>)
    ensures user == Some(CustomerUser(c)) && first.None? && second.None?
  {
    var company := new Company([], [c], []);
    first := company.GetUserIntended(c.username, "private");
    second := company.GetUserIntended(c.username, "private");
    user := company.user;
  }
}
