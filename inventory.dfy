/** The static description of the simulated Active Directory domain:
    its users and its domain controllers. */
module Inventory {

  datatype User = User(username: string, department: string, privileged: bool)

  datatype ControllerStatus = Healthy | Degraded | Down

  datatype DomainController = DomainController(name: string, ip: string, status: ControllerStatus)

  const DomainName: string := "SECURITY-LAB.LOCAL"

  const DomainUsers: seq<User> := [
    User("john.doe", "IT", false),
    User("jane.smith", "HR", false),
    User("admin.service", "IT", true),
    User("bob.johnson", "Finance", false),
    User("alice.williams", "IT", true),
    User("charlie.brown", "Sales", false)
  ]

  const DomainControllers: seq<DomainController> := [
    DomainController("DC01", "10.0.0.10", Healthy),
    DomainController("DC02", "10.0.0.11", Healthy)
  ]

  predicate UniqueUsernames(users: seq<User>)
  {
    forall i, j :: 0 <= i < j < |users| ==> users[i].username != users[j].username
  }

  lemma InventoryUsernamesUnique()
    ensures UniqueUsernames(DomainUsers)
  {
  }

  /** `[u for u in users if u["privileged"]]`: the privileged users, in inventory order. */
  function Privileged(users: seq<User>): (r: seq<User>)
    ensures |r| <= |users|
  {
    if users == [] then []
    else (if users[0].privileged then [users[0]] else []) + Privileged(users[1..])
  }

  /** The pool holds exactly the privileged users of the inventory. */
  lemma {:induction false} PrivilegedMembers(users: seq<User>)
    ensures forall u :: u in Privileged(users) <==> u in users && u.privileged
  {
    if users != [] {
      PrivilegedMembers(users[1..]);
      assert users == [users[0]] + users[1..];
    }
  }

  /** The pool the Kerberoasting and pass-the-hash simulations draw from. */
  function ServiceAccounts(): seq<User>
  {
    Privileged(DomainUsers)
  }

  /** The privileged pool of the lab inventory is never empty: it is
      admin.service and alice.williams. */
  lemma {:induction false} ServiceAccountsAre()
    ensures ServiceAccounts() == [DomainUsers[2], DomainUsers[4]]
  {
    var u := DomainUsers;
    assert Privileged(u[5..]) == [];
    assert Privileged(u[4..]) == [u[4]];
    assert Privileged(u[3..]) == [u[4]];
    assert Privileged(u[2..]) == [u[2], u[4]];
    assert Privileged(u[1..]) == [u[2], u[4]];
  }

  datatype Environment = Environment(
    domain: string,
    users: nat,
    domainControllers: seq<DomainController>,
    privilegedAccounts: nat,
    status: string)

  /** The environment summary: user count, controllers and the number of
      privileged accounts. */
  function GetEnvironment(): (e: Environment)
    ensures e.domain == DomainName && e.status == "healthy"
    ensures e.users == |DomainUsers| == 6
    ensures e.domainControllers == DomainControllers
    ensures e.privilegedAccounts == 2 && e.privilegedAccounts <= e.users
  {
    ServiceAccountsAre();
    Environment(DomainName, |DomainUsers|, DomainControllers, |Privileged(DomainUsers)|, "healthy")
  }
}
