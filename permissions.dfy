/**
 * The two request gates: `IsCustomer` (cart/permissions.py) guards the cart
 * views and `IsEmployeeOrReadOnly` (products/permissions.py) guards the
 * product views. A request is reduced to who sent it and its HTTP method.
 */
module Permissions {
  import opened Accounts

  /** `request.user`: the anonymous user or an authenticated account. */
  datatype Principal = Anonymous | Authenticated(user: User)

  /** `permissions.SAFE_METHODS` of the REST framework. */
  const SafeMethods: set<string> := {"GET", "HEAD", "OPTIONS"}

  predicate HasRole(who: Principal, role: Role) {
    who.Authenticated? && who.user.role == role
  }

  /** `IsCustomer.has_permission`; the HTTP method and the view are not consulted. */
  predicate IsCustomer(who: Principal, verb: string) {
    who.Authenticated? && RoleValue(who.user.role) == "CUSTOMER"
  }

  /** `IsEmployeeOrReadOnly.has_permission`. */
  predicate IsEmployeeOrReadOnly(who: Principal, verb: string) {
    if verb in SafeMethods then true
    else who.Authenticated? && RoleValue(who.user.role) == "EMPLOYEE"
  }

  /** Only an authenticated customer reaches the cart, whatever the HTTP method. */
  lemma IsCustomerDecision(who: Principal, verb: string, other: string)
    ensures IsCustomer(who, verb) <==> HasRole(who, Customer)
    ensures who.Anonymous? ==> !IsCustomer(who, verb)
    ensures HasRole(who, Employee) || HasRole(who, Admin) ==> !IsCustomer(who, verb)
    ensures IsCustomer(who, verb) == IsCustomer(who, other)
  {
  }

  /** Anyone may read; only an authenticated employee may write, not even an admin. */
  lemma IsEmployeeOrReadOnlyDecision(who: Principal, verb: string)
    ensures verb in SafeMethods ==> IsEmployeeOrReadOnly(who, verb)
    ensures verb !in SafeMethods ==> (IsEmployeeOrReadOnly(who, verb) <==> HasRole(who, Employee))
    ensures verb !in SafeMethods && (who.Anonymous? || HasRole(who, Customer) || HasRole(who, Admin)) ==>
              !IsEmployeeOrReadOnly(who, verb)
  {
  }

  /**
   * The outcomes products/tests.py expects: the list and detail reads are open
   * to an anonymous request; create, update and delete succeed for the
   * employee and are refused (403) for the customer.
   */
  lemma ProductTestOutcomes(employee: User, customer: User)
    requires employee.role == Employee && customer.role == Customer
    ensures IsEmployeeOrReadOnly(Anonymous, "GET")
    ensures forall m :: m in {"POST", "PUT", "DELETE"} ==> IsEmployeeOrReadOnly(Authenticated(employee), m)
    ensures forall m :: m in {"POST", "PUT", "DELETE"} ==> !IsEmployeeOrReadOnly(Authenticated(customer), m)
  {
  }
}
