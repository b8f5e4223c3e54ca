/**
 * The simulation's configuration record (MainConfig.java): a generated id,
 * six nullable Integer settings, and an `active` flag.
 */
module Config {
  import opened Lang

  datatype MainConfig = MainConfig(
    id: Option<int64>,
    totalTickets: Option<int32>,
    ticketReleaseRate: Option<int32>,
    customerRetrievalRate: Option<int32>,
    maxTicketCapacity: Option<int32>,
    numberOfVendors: Option<int32>,
    numberOfCustomers: Option<int32>,
    active: bool)

  /** The record's fields, to say field by field what a setter leaves alone. */
  datatype Field =
    | Id | TotalTickets | TicketReleaseRate | CustomerRetrievalRate
    | MaxTicketCapacity | NumberOfVendors | NumberOfCustomers | Active

  datatype FieldValue = LongValue(l: Option<int64>) | IntegerValue(i: Option<int32>) | BoolValue(b: bool)

  /** The getter for field `f`. */
  function Get(c: MainConfig, f: Field): FieldValue {
    match f
    case Id => LongValue(c.id)
    case TotalTickets => IntegerValue(c.totalTickets)
    case TicketReleaseRate => IntegerValue(c.ticketReleaseRate)
    case CustomerRetrievalRate => IntegerValue(c.customerRetrievalRate)
    case MaxTicketCapacity => IntegerValue(c.maxTicketCapacity)
    case NumberOfVendors => IntegerValue(c.numberOfVendors)
    case NumberOfCustomers => IntegerValue(c.numberOfCustomers)
    case Active => BoolValue(c.active)
  }

  /** The six fields that carry `@NotNull` and `@Min(1)`. */
  predicate Constrained(f: Field) {
    !f.Id? && !f.Active?
  }

  /** `@NotNull` together with `@Min(value = 1)` on one Integer field. */
  predicate AtLeastOne(v: Option<int32>) {
    v.Some? && v.value >= 1
  }

  /** The bean-validation constraints: all six settings present and at least 1. */
  predicate Valid(c: MainConfig) {
    && AtLeastOne(c.totalTickets)
    && AtLeastOne(c.ticketReleaseRate)
    && AtLeastOne(c.customerRetrievalRate)
    && AtLeastOne(c.maxTicketCapacity)
    && AtLeastOne(c.numberOfVendors)
    && AtLeastOne(c.numberOfCustomers)
  }

  /** Validity read field by field: exactly the constrained fields matter, and each must be at least 1. */
  lemma ValidFieldwise(c: MainConfig)
    ensures Valid(c) <==> forall f: Field :: Constrained(f) ==> Get(c, f).IntegerValue? && AtLeastOne(Get(c, f).i)
  {
    if !Valid(c) {
      if !AtLeastOne(c.totalTickets) { assert !AtLeastOne(Get(c, TotalTickets).i); }
      else if !AtLeastOne(c.ticketReleaseRate) { assert !AtLeastOne(Get(c, TicketReleaseRate).i); }
      else if !AtLeastOne(c.customerRetrievalRate) { assert !AtLeastOne(Get(c, CustomerRetrievalRate).i); }
      else if !AtLeastOne(c.maxTicketCapacity) { assert !AtLeastOne(Get(c, MaxTicketCapacity).i); }
      else if !AtLeastOne(c.numberOfVendors) { assert !AtLeastOne(Get(c, NumberOfVendors).i); }
      else { assert !AtLeastOne(Get(c, NumberOfCustomers).i); }
    }
  }

  /** The no-argument constructor: every Integer and the id null, `active` false. */
  function Default(): (c: MainConfig)
    ensures forall f: Field :: !f.Active? ==> Get(c, f) in {LongValue(None), IntegerValue(None)}
    ensures !c.active
  {
    MainConfig(None, None, None, None, None, None, None, false)
  }

  /** A default-constructed record does not pass validation. */
  lemma DefaultInvalid()
    ensures !Valid(Default())
  {
    assert Get(Default(), TotalTickets) == IntegerValue(None);
  }

  /** The seven-argument constructor: each argument lands in its own field, the id stays null. */
  function Create(totalTickets: Option<int32>, ticketReleaseRate: Option<int32>, customerRetrievalRate: Option<int32>,
                  maxTicketCapacity: Option<int32>, numberOfVendors: Option<int32>, numberOfCustomers: Option<int32>,
                  active: bool): (c: MainConfig)
    ensures Get(c, Id) == LongValue(None)
    ensures Get(c, TotalTickets) == IntegerValue(totalTickets)
    ensures Get(c, TicketReleaseRate) == IntegerValue(ticketReleaseRate)
    ensures Get(c, CustomerRetrievalRate) == IntegerValue(customerRetrievalRate)
    ensures Get(c, MaxTicketCapacity) == IntegerValue(maxTicketCapacity)
    ensures Get(c, NumberOfVendors) == IntegerValue(numberOfVendors)
    ensures Get(c, NumberOfCustomers) == IntegerValue(numberOfCustomers)
    ensures Get(c, Active) == BoolValue(active)
  {
    MainConfig(None, totalTickets, ticketReleaseRate, customerRetrievalRate, maxTicketCapacity,
               numberOfVendors, numberOfCustomers, active)
  }

  /** The record the constructor builds is valid exactly when the six settings are present and at least 1. */
  lemma CreateValid(totalTickets: Option<int32>, ticketReleaseRate: Option<int32>, customerRetrievalRate: Option<int32>,
                    maxTicketCapacity: Option<int32>, numberOfVendors: Option<int32>, numberOfCustomers: Option<int32>,
                    active: bool)
    ensures Valid(Create(totalTickets, ticketReleaseRate, customerRetrievalRate, maxTicketCapacity,
                         numberOfVendors, numberOfCustomers, active))
        <==> AtLeastOne(totalTickets) && AtLeastOne(ticketReleaseRate) && AtLeastOne(customerRetrievalRate)
             && AtLeastOne(maxTicketCapacity) && AtLeastOne(numberOfVendors) && AtLeastOne(numberOfCustomers)
  {
  }

  /** What a setter promises: the chosen field reads back the new value, every other field is untouched. */
  predicate SetOnly(before: MainConfig, after: MainConfig, f: Field, v: FieldValue) {
    Get(after, f) == v && forall g: Field :: g != f ==> Get(after, g) == Get(before, g)
  }

  function SetId(c: MainConfig, id: Option<int64>): (r: MainConfig)
    ensures SetOnly(c, r, Id, LongValue(id))
  {
    c.(id := id)
  }

  function SetTotalTickets(c: MainConfig, v: Option<int32>): (r: MainConfig)
    ensures SetOnly(c, r, TotalTickets, IntegerValue(v))
  {
    c.(totalTickets := v)
  }

  function SetTicketReleaseRate(c: MainConfig, v: Option<int32>): (r: MainConfig)
    ensures SetOnly(c, r, TicketReleaseRate, IntegerValue(v))
  {
    c.(ticketReleaseRate := v)
  }

  function SetCustomerRetrievalRate(c: MainConfig, v: Option<int32>): (r: MainConfig)
    ensures SetOnly(c, r, CustomerRetrievalRate, IntegerValue(v))
  {
    c.(customerRetrievalRate := v)
  }

  function SetMaxTicketCapacity(c: MainConfig, v: Option<int32>): (r: MainConfig)
    ensures SetOnly(c, r, MaxTicketCapacity, IntegerValue(v))
  {
    c.(maxTicketCapacity := v)
  }

  function SetNumberOfVendors(c: MainConfig, v: Option<int32>): (r: MainConfig)
    ensures SetOnly(c, r, NumberOfVendors, IntegerValue(v))
  {
    c.(numberOfVendors := v)
  }

  function SetNumberOfCustomers(c: MainConfig, v: Option<int32>): (r: MainConfig)
    ensures SetOnly(c, r, NumberOfCustomers, IntegerValue(v))
  {
    c.(numberOfCustomers := v)
  }

  function SetActive(c: MainConfig, active: bool): (r: MainConfig)
    ensures SetOnly(c, r, Active, BoolValue(active))
  {
    c.(active := active)
  }

  /** The getters determine the record: two records that agree on every field are the same. */
  lemma FieldsDetermineRecord(a: MainConfig, b: MainConfig)
    requires forall f: Field :: Get(a, f) == Get(b, f)
    ensures a == b
  {
    assert Get(a, Id) == Get(b, Id);
    assert Get(a, TotalTickets) == Get(b, TotalTickets);
    assert Get(a, TicketReleaseRate) == Get(b, TicketReleaseRate);
    assert Get(a, CustomerRetrievalRate) == Get(b, CustomerRetrievalRate);
    assert Get(a, MaxTicketCapacity) == Get(b, MaxTicketCapacity);
    assert Get(a, NumberOfVendors) == Get(b, NumberOfVendors);
    assert Get(a, NumberOfCustomers) == Get(b, NumberOfCustomers);
    assert Get(a, Active) == Get(b, Active);
  }

  /** Writing back the value a getter returned changes nothing. */
  lemma SetterGetterRoundTrip(c: MainConfig)
    ensures SetTotalTickets(c, c.totalTickets) == c
    ensures SetTicketReleaseRate(c, c.ticketReleaseRate) == c
    ensures SetCustomerRetrievalRate(c, c.customerRetrievalRate) == c
    ensures SetMaxTicketCapacity(c, c.maxTicketCapacity) == c
    ensures SetNumberOfVendors(c, c.numberOfVendors) == c
    ensures SetNumberOfCustomers(c, c.numberOfCustomers) == c
    ensures SetId(c, c.id) == c && SetActive(c, c.active) == c
  {
  }

  /** The id and the `active` flag play no part in validation. */
  lemma IdAndActiveIrrelevant(c: MainConfig, id: Option<int64>, active: bool)
    ensures Valid(SetId(c, id)) == Valid(c)
    ensures Valid(SetActive(c, active)) == Valid(c)
  {
  }
}
