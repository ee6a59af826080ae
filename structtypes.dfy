/** The struct examples: records with required, nullable and defaulted
    fields, their constructors (which reject a missing required field,
    substitute defaults and then validate), their renderings, per-field
    updates and lenses, a builder, and three ways of attaching a validator
    (a boolean, a message, an error value). */
module StructTypes {
  import opened Basics
  import opened Access
  import opened FuncCollections

  /** Why a struct could not be constructed. */
  datatype StructError =
    | NullArgument(field: string)    // a required field was given null
    | Invalid(message: string)       // a ValidationException with this message
    | NegativeRadius(radius: Int32)  // the NegativeRadiusException of Circle3

  /** The message the failure carries. */
  function Message(e: StructError): string {
    match e
    case NullArgument(field) => field
    case Invalid(message) => message
    case NegativeRadius(radius) => "Radius: " + IntToString(radius)
  }

  /** How a nullable field renders: its value, or "null". */
  function NullableToString(o: Option<string>): string {
    match o
    case Some(s) => s
    case None => "null"
  }

  // --------------------------------------------------------------- Person

  /** Person: firstName and lastName required, middleName nullable, age
      defaulted to MINUS_ONE. */
  datatype Person = Person(firstName: string, middleName: Option<string>, lastName: string, age: Int32)

  /** DefaultValue.MINUS_ONE */
  const DEFAULT_AGE: Int32 := -1

  /** new Person(firstName, middleName, lastName, age), a None argument
      standing for a Java null. The required fields are checked in
      declaration order; a null age is replaced by the default. */
  function NewPerson(firstName: Option<string>, middleName: Option<string>, lastName: Option<string>, age: Option<Int32>)
    : (r: Result<Person, StructError>)
    ensures r.Success? <==> firstName.Some? && lastName.Some?
    ensures firstName.None? ==> r == Failure(NullArgument("firstName"))
    ensures firstName.Some? && lastName.None? ==> r == Failure(NullArgument("lastName"))
    ensures r.Success? ==> r.value.firstName == firstName.value && r.value.lastName == lastName.value
    ensures r.Success? ==> r.value.middleName == middleName
    ensures r.Success? ==> r.value.age == (if age.Some? then age.value else DEFAULT_AGE)
  {
    if firstName.None? then Failure(NullArgument("firstName"))
    else if lastName.None? then Failure(NullArgument("lastName"))
    else Success(Person(firstName.value, middleName, lastName.value, OrElse(age, DEFAULT_AGE)))
  }

  /** new Person(firstName, lastName): the constructor for the required
      fields only; the middle name is null and the age takes its default. */
  function NewPersonOf(firstName: Option<string>, lastName: Option<string>): (r: Result<Person, StructError>)
    ensures r.Success? <==> firstName.Some? && lastName.Some?
    ensures r.Failure? ==> r.error.NullArgument?
    ensures r.Success? ==> r.value.middleName == None && r.value.age == DEFAULT_AGE
  {
    NewPerson(firstName, None, lastName, None)
  }

  /** Person.toString(): the type name, then each field as name: value in
      declaration order, between brackets. The first name follows the
      opening, the age closes the rendering. */
  function PersonToString(p: Person): (r: string)
    ensures |r| > 18 + |p.firstName| + |IntToString(p.age)|
    ensures r[..18] == "Person[firstName: " && r[18..18 + |p.firstName|] == p.firstName
    ensures r[|r| - 1 - |IntToString(p.age)|..|r| - 1] == IntToString(p.age) && r[|r| - 1] == ']'
  {
    "Person[firstName: " + p.firstName + ", middleName: " + NullableToString(p.middleName)
    + ", lastName: " + p.lastName + ", age: " + IntToString(p.age) + "]"
  }

  /** person.withLastName(v): a new Person, only the last name replaced. */
  function WithLastName(p: Person, v: string): (r: Person)
    ensures r.lastName == v
    ensures r.firstName == p.firstName && r.middleName == p.middleName && r.age == p.age
  {
    p.(lastName := v)
  }

  /** The lastName lens of Person (read: lastName(), write: withLastName).
      It obeys the lens laws: a write changes the last name and nothing else. */
  function PersonLastName(): (l: Lens<Person, string>)
    ensures forall p :: l.read(p) == p.lastName
    ensures forall p, v :: l.write(p, v) == WithLastName(p, v)
    ensures Lawful(l)
  {
    Lens((p: Person) => p.lastName, (p: Person, v: string) => WithLastName(p, v))
  }

  /** person.equals(other): the generated field-by-field comparison, which
      is structural equality of the field tuple. */
  function PersonEquals(a: Person, b: Person): (r: bool)
    ensures r <==> a == b
  {
    && a.firstName == b.firstName
    && a.middleName == b.middleName
    && a.lastName == b.lastName
    && a.age == b.age
  }

  /** The age can be read back from any Person's rendering. */
  lemma PersonRenderingShowsAge(p: Person)
    ensures var r := PersonToString(p);
            ParseInt(r[|r| - 1 - |IntToString(p.age)|..|r| - 1]) == Some(p.age as int)
  {
    IntToStringRoundTrip(p.age);
  }

  /** Any first and last name give a Person with no middle name and age -1. */
  lemma NewPersonOfDefaults(firstName: string, lastName: string)
    ensures NewPersonOf(Some(firstName), Some(lastName)) == Success(Person(firstName, None, lastName, DEFAULT_AGE))
  {
  }

  // ---------------------------------------------------- Employee, Department

  /** Employee: firstName and lastName required, middleName nullable. */
  datatype Employee = Employee(firstName: string, middleName: Option<string>, lastName: string)

  /** new Employee(firstName, lastName): the required fields are checked
      in declaration order. */
  function NewEmployee(firstName: Option<string>, lastName: Option<string>): (r: Result<Employee, StructError>)
    ensures r.Success? <==> firstName.Some? && lastName.Some?
    ensures firstName.None? ==> r == Failure(NullArgument("firstName"))
    ensures firstName.Some? && lastName.None? ==> r == Failure(NullArgument("lastName"))
    ensures r.Success? ==> r.value == Employee(firstName.value, None, lastName.value)
  {
    if firstName.None? then Failure(NullArgument("firstName"))
    else if lastName.None? then Failure(NullArgument("lastName"))
    else Success(Employee(firstName.value, None, lastName.value))
  }

  /** Employee.toString(): opens with the first name, closes with the last name. */
  function EmployeeToString(e: Employee): (r: string)
    ensures |r| > 20 + |e.firstName| + |e.lastName|
    ensures r[..20] == "Employee[firstName: " && r[20..20 + |e.firstName|] == e.firstName
    ensures r[|r| - 1 - |e.lastName|..|r| - 1] == e.lastName && r[|r| - 1] == ']'
  {
    "Employee[firstName: " + e.firstName + ", middleName: " + NullableToString(e.middleName)
    + ", lastName: " + e.lastName + "]"
  }

  /** Department: name and manager both required. */
  datatype Department = Department(name: string, manager: Employee)

  /** new Department(name, manager): the required fields are checked in
      declaration order. */
  function NewDepartment(name: Option<string>, manager: Option<Employee>): (r: Result<Department, StructError>)
    ensures r.Success? <==> name.Some? && manager.Some?
    ensures name.None? ==> r == Failure(NullArgument("name"))
    ensures name.Some? && manager.None? ==> r == Failure(NullArgument("manager"))
    ensures r.Success? ==> r.value == Department(name.value, manager.value)
  {
    if name.None? then Failure(NullArgument("name"))
    else if manager.None? then Failure(NullArgument("manager"))
    else Success(Department(name.value, manager.value))
  }

  /** Department.toString(): opens with the name, closes with the manager's
      own rendering nested inside. */
  function DepartmentToString(d: Department): (r: string)
    ensures |r| > 17 + |d.name| + |EmployeeToString(d.manager)|
    ensures r[..17] == "Department[name: " && r[17..17 + |d.name|] == d.name
    ensures r[|r| - 1 - |EmployeeToString(d.manager)|..|r| - 1] == EmployeeToString(d.manager) && r[|r| - 1] == ']'
  {
    "Department[name: " + d.name + ", manager: " + EmployeeToString(d.manager) + "]"
  }

  /** theEmployee.firstName: a lawful lens on the first name. */
  function EmployeeFirstName(): (l: Lens<Employee, string>)
    ensures forall e :: l.read(e) == e.firstName
    ensures forall e, v :: l.write(e, v) == Employee(v, e.middleName, e.lastName)
    ensures Lawful(l)
  {
    Lens((e: Employee) => e.firstName, (e: Employee, v: string) => e.(firstName := v))
  }

  /** theEmployee.lastName: a lawful lens on the last name. */
  function EmployeeLastName(): (l: Lens<Employee, string>)
    ensures forall e :: l.read(e) == e.lastName
    ensures forall e, v :: l.write(e, v) == Employee(e.firstName, e.middleName, v)
    ensures Lawful(l)
  {
    Lens((e: Employee) => e.lastName, (e: Employee, v: string) => e.(lastName := v))
  }

  /** theDepartment.name, used read only. */
  function DepartmentName(): (read: Department -> string)
    ensures forall d :: read(d) == d.name
  {
    (d: Department) => d.name
  }

  /** theDepartment.manager: a lawful lens on the manager. */
  function DepartmentManager(): (l: Lens<Department, Employee>)
    ensures forall d :: l.read(d) == d.manager
    ensures forall d, m :: l.write(d, m) == Department(d.name, m)
    ensures Lawful(l)
  {
    Lens((d: Department) => d.manager, (d: Department, m: Employee) => d.(manager := m))
  }

  /** theDepartment.manager.firstName: reads the manager's first name and
      writes it without touching anything else. */
  function ManagerFirstName(): (l: Lens<Department, string>)
    ensures forall d :: l.read(d) == d.manager.firstName
    ensures forall d, v :: l.write(d, v) == Department(d.name, Employee(v, d.manager.middleName, d.manager.lastName))
  {
    Compose(DepartmentManager(), EmployeeFirstName())
  }

  /** theDepartment.manager.lastName: reads the manager's last name and
      writes it without touching anything else. */
  function ManagerLastName(): (l: Lens<Department, string>)
    ensures forall d :: l.read(d) == d.manager.lastName
    ensures forall d, v :: l.write(d, v) == Department(d.name, Employee(d.manager.firstName, d.manager.middleName, v))
  {
    Compose(DepartmentManager(), EmployeeLastName())
  }

  /** The nested lens reads the manager's first name, and writing through it
      changes only that name: the department name and the manager's other
      fields stay as they were. */
  lemma ManagerFirstNameReadWrite(d: Department, v: string)
    ensures ManagerFirstName().read(d) == d.manager.firstName
    ensures ManagerFirstName().write(d, v) == Department(d.name, Employee(v, d.manager.middleName, d.manager.lastName))
  {
  }

  /** The nested lenses obey the lens laws because their parts do. */
  lemma ManagerLensesLawful()
    ensures Lawful(ManagerFirstName())
    ensures Lawful(ManagerLastName())
  {
    ComposeLawful(DepartmentManager(), EmployeeFirstName());
    ComposeLawful(DepartmentManager(), EmployeeLastName());
  }

  // ---------------------------------------------------------------- Builder

  /** Person.Builder: collects fields one call at a time; build() runs the
      constructor, with its null checks and defaults, on what was collected. */
  class PersonBuilder {
    var firstName: Option<string>
    var middleName: Option<string>
    var lastName: Option<string>
    var age: Option<Int32>

    constructor ()
      ensures firstName == None && middleName == None && lastName == None && age == None
    {
      firstName, middleName, lastName, age := None, None, None, None;
    }

    method SetFirstName(v: string)
      modifies this
      ensures firstName == Some(v)
      ensures middleName == old(middleName) && lastName == old(lastName) && age == old(age)
    {
      firstName := Some(v);
    }

    method SetMiddleName(v: string)
      modifies this
      ensures middleName == Some(v)
      ensures firstName == old(firstName) && lastName == old(lastName) && age == old(age)
    {
      middleName := Some(v);
    }

    method SetLastName(v: string)
      modifies this
      ensures lastName == Some(v)
      ensures firstName == old(firstName) && middleName == old(middleName) && age == old(age)
    {
      lastName := Some(v);
    }

    method SetAge(v: Int32)
      modifies this
      ensures age == Some(v)
      ensures firstName == old(firstName) && middleName == old(middleName) && lastName == old(lastName)
    {
      age := Some(v);
    }

    /** build(): the same value the full constructor gives for the collected fields. */
    method Build() returns (r: Result<Person, StructError>)
      ensures r == NewPerson(firstName, middleName, lastName, age)
      ensures r.Success? <==> firstName.Some? && lastName.Some?
    {
      r := NewPerson(firstName, middleName, lastName, age);
    }
  }

  /** example09_Builder: firstName and lastName only give the same Person as
      the two-argument constructor. */
  method BuilderExample() returns (r: Result<Person, StructError>)
    ensures r == NewPersonOf(Some("John"), Some("Doe"))
    ensures r == Success(Person("John", None, "Doe", -1))
  {
    var b := new PersonBuilder();
    b.SetFirstName("John");
    b.SetLastName("Doe");
    r := b.Build();
  }

  /** example10_Builder_notRequired: the middle name is kept once it is set. */
  method BuilderMiddleNameExample() returns (r: Result<Person, StructError>)
    ensures r == Success(Person("John", Some("F"), "Kookies", -1))
    ensures PersonToString(r.value) == "Person[firstName: John, middleName: F, lastName: Kookies, age: -1]"
  {
    var b := new PersonBuilder();
    b.SetFirstName("John");
    b.SetMiddleName("F");
    b.SetLastName("Kookies");
    r := b.Build();
    JohnFKookiesRendering();
  }

  // ---------------------------------------------------------------- Circles

  datatype Circle1 = Circle1(x: Int32, y: Int32, radius: Int32)
  datatype Circle2 = Circle2(x: Int32, y: Int32, radius: Int32)
  datatype Circle3 = Circle3(x: Int32, y: Int32, radius: Int32)

  /** The field list shared by the three circle renderings: opens with x,
      closes with the radius. */
  function CircleFields(x: Int32, y: Int32, radius: Int32): (r: string)
    ensures |r| > 4 + |IntToString(x)| + |IntToString(radius)|
    ensures r[..4] == "[x: " && r[4..4 + |IntToString(x)|] == IntToString(x)
    ensures r[|r| - 1 - |IntToString(radius)|..|r| - 1] == IntToString(radius) && r[|r| - 1] == ']'
  {
    var xs, rs := IntToString(x), IntToString(radius);
    var p1 := "[x: " + xs;
    var p2 := p1 + ", y: " + IntToString(y) + ", radius: ";
    var p3 := p2 + rs;
    SliceLeft("[x: ", xs, 0, 4); SliceRight("[x: ", xs, 4, |p1|);
    SliceLeft(p1, ", y: ", 0, |p1|);
    SliceLeft(p1 + ", y: ", IntToString(y), 0, |p1|);
    SliceLeft(p1 + ", y: " + IntToString(y), ", radius: ", 0, |p1|);
    SliceLeft(p2, rs, 0, |p1|);
    SliceLeft(p3, "]", 0, |p1|);
    SliceRight(p2, rs, |p2|, |p3|);
    SliceLeft(p3, "]", |p2|, |p3|);
    p3 + "]"
  }


  /** Circle1.toString(): the type name, then the field list. */
  function Circle1ToString(c: Circle1): (r: string)
    ensures |r| == 7 + |CircleFields(c.x, c.y, c.radius)|
    ensures r[..7] == "Circle1" && r[7..] == CircleFields(c.x, c.y, c.radius)
  {
    "Circle1" + CircleFields(c.x, c.y, c.radius)
  }

  /** Circle2.toString(): the type name, then the field list. */
  function Circle2ToString(c: Circle2): (r: string)
    ensures |r| == 7 + |CircleFields(c.x, c.y, c.radius)|
    ensures r[..7] == "Circle2" && r[7..] == CircleFields(c.x, c.y, c.radius)
  {
    "Circle2" + CircleFields(c.x, c.y, c.radius)
  }

  /** Circle3.toString(): the type name, then the field list. */
  function Circle3ToString(c: Circle3): (r: string)
    ensures |r| == 7 + |CircleFields(c.x, c.y, c.radius)|
    ensures r[..7] == "Circle3" && r[7..] == CircleFields(c.x, c.y, c.radius)
  {
    "Circle3" + CircleFields(c.x, c.y, c.radius)
  }

  /** The radius can be read back from any circle's field list, so a
      rendering never hides the radius a validator judged. */
  lemma CircleFieldsShowRadius(x: Int32, y: Int32, radius: Int32)
    ensures var r := CircleFields(x, y, radius);
            ParseInt(r[|r| - 1 - |IntToString(radius)|..|r| - 1]) == Some(radius as int)
  {
    IntToStringRoundTrip(radius);
  }

  /** The validator declared by Circle1: a boolean, true for a positive radius. */
  function Circle1Check(x: Int32, y: Int32, radius: Int32): (ok: bool)
    ensures ok <==> 0 < radius
  {
    radius > 0
  }

  /** The validator declared by Circle2: null when valid, else a message
      naming the radius. */
  function Circle2Check(x: Int32, y: Int32, radius: Int32): (r: Option<string>)
    ensures r.None? <==> 0 < radius
    ensures r.Some? ==> r.value == "Radius cannot be less than zero: " + IntToString(radius)
  {
    if radius > 0 then None else Some("Radius cannot be less than zero: " + IntToString(radius))
  }

  /** The validator declared by Circle3: null when valid, else an
      exception carrying the radius. */
  function Circle3Check(x: Int32, y: Int32, radius: Int32): (r: Option<StructError>)
    ensures r.None? <==> 0 < radius
    ensures r.Some? ==> r.value == NegativeRadius(radius)
  {
    if radius > 0 then None else Some(NegativeRadius(radius))
  }

  /** How the struct runtime applies a boolean validator: false fails with a
      generic message naming the type and embedding the rendering. */
  function ValidateBool<T>(value: T, ok: bool, typeName: string, rendering: string): (r: Result<T, StructError>)
    ensures r.Success? <==> ok
    ensures r.Success? ==> r.value == value
    ensures !ok ==> r.error == Invalid(typeName + ": " + rendering)
  {
    if ok then Success(value) else Failure(Invalid(typeName + ": " + rendering))
  }

  /** How the struct runtime applies a message validator: a message fails with it. */
  function ValidateMessage<T>(value: T, message: Option<string>): (r: Result<T, StructError>)
    ensures r.Success? <==> message.None?
    ensures r.Success? ==> r.value == value
    ensures message.Some? ==> r.error == Invalid(message.value)
  {
    match message
    case None => Success(value)
    case Some(m) => Failure(Invalid(m))
  }

  /** How the struct runtime applies an exception validator: an error fails with it. */
  function ValidateError<T>(value: T, error: Option<StructError>): (r: Result<T, StructError>)
    ensures r.Success? <==> error.None?
    ensures r.Success? ==> r.value == value
    ensures error.Some? ==> r.error == error.value
  {
    match error
    case None => Success(value)
    case Some(e) => Failure(e)
  }

  /** new Circle1(x, y, radius) */
  function NewCircle1(x: Int32, y: Int32, radius: Int32): (r: Result<Circle1, StructError>)
    ensures r.Success? <==> radius > 0
    ensures r.Success? ==> r.value == Circle1(x, y, radius)
    ensures r.Failure? ==> r.error == Invalid("Circle1: " + Circle1ToString(Circle1(x, y, radius)))
    ensures r.Failure? ==> Message(r.error) == "Circle1: " + Circle1ToString(Circle1(x, y, radius))
  {
    var c := Circle1(x, y, radius);
    assert "Circle1" + ": " == "Circle1: ";
    ValidateBool(c, Circle1Check(x, y, radius), "Circle1", Circle1ToString(c))
  }

  /** new Circle2(x, y, radius) */
  function NewCircle2(x: Int32, y: Int32, radius: Int32): (r: Result<Circle2, StructError>)
    ensures r.Success? <==> radius > 0
    ensures r.Success? ==> r.value == Circle2(x, y, radius)
    ensures r.Failure? ==> r.error.Invalid? && Message(r.error) == "Radius cannot be less than zero: " + IntToString(radius)
  {
    ValidateMessage(Circle2(x, y, radius), Circle2Check(x, y, radius))
  }

  /** new Circle3(x, y, radius) */
  function NewCircle3(x: Int32, y: Int32, radius: Int32): (r: Result<Circle3, StructError>)
    ensures r.Success? <==> radius > 0
    ensures r.Success? ==> r.value == Circle3(x, y, radius)
    ensures r.Failure? ==> r.error == NegativeRadius(radius) && Message(r.error) == "Radius: " + IntToString(radius)
  {
    ValidateError(Circle3(x, y, radius), Circle3Check(x, y, radius))
  }

  /** The three validators, and so the three validation styles, accept and
      reject exactly the same circles. */
  lemma CircleValidatorsAgree(x: Int32, y: Int32, radius: Int32)
    ensures Circle1Check(x, y, radius) <==> Circle2Check(x, y, radius).None?
    ensures Circle2Check(x, y, radius).None? <==> Circle3Check(x, y, radius).None?
    ensures NewCircle1(x, y, radius).Success? == NewCircle2(x, y, radius).Success?
    ensures NewCircle2(x, y, radius).Success? == NewCircle3(x, y, radius).Success?
  {
  }

  /** A failed Circle2 or Circle3 names the radius it refused: the radius can
      be read back from the message. */
  lemma CircleMessageNamesRadius(x: Int32, y: Int32, radius: Int32)
    requires radius <= 0
    ensures ParseInt(Message(NewCircle3(x, y, radius).error)[8..]) == Some(radius as int)
    ensures ParseInt(Message(NewCircle2(x, y, radius).error)[33..]) == Some(radius as int)
  {
    var m3 := Message(NewCircle3(x, y, radius).error);
    assert m3[8..] == IntToString(radius);
    var m2 := Message(NewCircle2(x, y, radius).error);
    assert m2[33..] == IntToString(radius);
    IntToStringRoundTrip(radius);
  }

  // ------------------------------------------- the tests of StructTypeExamples

  // Each rendering below is checked in a lemma of its own; the test lemmas
  // that follow combine them.

  lemma JohnDoeRendering()
    ensures PersonToString(Person("John", None, "Doe", -1))
         == "Person[firstName: John, middleName: null, lastName: Doe, age: -1]"
  {
    assert IntToString(-1) == "-1";
    assert "Person[firstName: " + "John" == "Person[firstName: John";
    assert "Person[firstName: John" + ", middleName: " == "Person[firstName: John, middleName: ";
    assert "Person[firstName: John, middleName: " + "null" == "Person[firstName: John, middleName: null";
    assert "Person[firstName: John, middleName: null" + ", lastName: " == "Person[firstName: John, middleName: null, lastName: ";
    assert "Person[firstName: John, middleName: null, lastName: " + "Doe" == "Person[firstName: John, middleName: null, lastName: Doe";
    assert "Person[firstName: John, middleName: null, lastName: Doe" + ", age: " == "Person[firstName: John, middleName: null, lastName: Doe, age: ";
    assert "Person[firstName: John, middleName: null, lastName: Doe, age: " + "-1" == "Person[firstName: John, middleName: null, lastName: Doe, age: -1";
    assert "Person[firstName: John, middleName: null, lastName: Doe, age: -1" + "]" == "Person[firstName: John, middleName: null, lastName: Doe, age: -1]";
  }

  lemma JohnSmithRendering()
    ensures PersonToString(Person("John", None, "Smith", -1))
         == "Person[firstName: John, middleName: null, lastName: Smith, age: -1]"
  {
    assert IntToString(-1) == "-1";
    assert "Person[firstName: " + "John" == "Person[firstName: John";
    assert "Person[firstName: John" + ", middleName: " == "Person[firstName: John, middleName: ";
    assert "Person[firstName: John, middleName: " + "null" == "Person[firstName: John, middleName: null";
    assert "Person[firstName: John, middleName: null" + ", lastName: " == "Person[firstName: John, middleName: null, lastName: ";
    assert "Person[firstName: John, middleName: null, lastName: " + "Smith" == "Person[firstName: John, middleName: null, lastName: Smith";
    assert "Person[firstName: John, middleName: null, lastName: Smith" + ", age: " == "Person[firstName: John, middleName: null, lastName: Smith, age: ";
    assert "Person[firstName: John, middleName: null, lastName: Smith, age: " + "-1" == "Person[firstName: John, middleName: null, lastName: Smith, age: -1";
    assert "Person[firstName: John, middleName: null, lastName: Smith, age: -1" + "]" == "Person[firstName: John, middleName: null, lastName: Smith, age: -1]";
  }

  lemma JohnDoeThirtyRendering()
    ensures PersonToString(Person("John", None, "Doe", 30))
         == "Person[firstName: John, middleName: null, lastName: Doe, age: 30]"
  {
    assert IntToString(30) == "30";
    assert "Person[firstName: " + "John" == "Person[firstName: John";
    assert "Person[firstName: John" + ", middleName: " == "Person[firstName: John, middleName: ";
    assert "Person[firstName: John, middleName: " + "null" == "Person[firstName: John, middleName: null";
    assert "Person[firstName: John, middleName: null" + ", lastName: " == "Person[firstName: John, middleName: null, lastName: ";
    assert "Person[firstName: John, middleName: null, lastName: " + "Doe" == "Person[firstName: John, middleName: null, lastName: Doe";
    assert "Person[firstName: John, middleName: null, lastName: Doe" + ", age: " == "Person[firstName: John, middleName: null, lastName: Doe, age: ";
    assert "Person[firstName: John, middleName: null, lastName: Doe, age: " + "30" == "Person[firstName: John, middleName: null, lastName: Doe, age: 30";
    assert "Person[firstName: John, middleName: null, lastName: Doe, age: 30" + "]" == "Person[firstName: John, middleName: null, lastName: Doe, age: 30]";
  }

  lemma JohnFKookiesRendering()
    ensures PersonToString(Person("John", Some("F"), "Kookies", -1))
         == "Person[firstName: John, middleName: F, lastName: Kookies, age: -1]"
  {
    assert IntToString(-1) == "-1";
    assert "Person[firstName: " + "John" == "Person[firstName: John";
    assert "Person[firstName: John" + ", middleName: " == "Person[firstName: John, middleName: ";
    assert "Person[firstName: John, middleName: " + "F" == "Person[firstName: John, middleName: F";
    assert "Person[firstName: John, middleName: F" + ", lastName: " == "Person[firstName: John, middleName: F, lastName: ";
    assert "Person[firstName: John, middleName: F, lastName: " + "Kookies" == "Person[firstName: John, middleName: F, lastName: Kookies";
    assert "Person[firstName: John, middleName: F, lastName: Kookies" + ", age: " == "Person[firstName: John, middleName: F, lastName: Kookies, age: ";
    assert "Person[firstName: John, middleName: F, lastName: Kookies, age: " + "-1" == "Person[firstName: John, middleName: F, lastName: Kookies, age: -1";
    assert "Person[firstName: John, middleName: F, lastName: Kookies, age: -1" + "]" == "Person[firstName: John, middleName: F, lastName: Kookies, age: -1]";
  }

  lemma JohnDoeEmployeeRendering()
    ensures EmployeeToString(Employee("John", None, "Doe"))
         == "Employee[firstName: John, middleName: null, lastName: Doe]"
  {
    assert "Employee[firstName: " + "John" == "Employee[firstName: John";
    assert "Employee[firstName: John" + ", middleName: " == "Employee[firstName: John, middleName: ";
    assert "Employee[firstName: John, middleName: " + "null" == "Employee[firstName: John, middleName: null";
    assert "Employee[firstName: John, middleName: null" + ", lastName: " == "Employee[firstName: John, middleName: null, lastName: ";
    assert "Employee[firstName: John, middleName: null, lastName: " + "Doe" == "Employee[firstName: John, middleName: null, lastName: Doe";
    assert "Employee[firstName: John, middleName: null, lastName: Doe" + "]" == "Employee[firstName: John, middleName: null, lastName: Doe]";
  }

  lemma JonathanDoeEmployeeRendering()
    ensures EmployeeToString(Employee("Jonathan", None, "Doe"))
         == "Employee[firstName: Jonathan, middleName: null, lastName: Doe]"
  {
    assert "Employee[firstName: " + "Jonathan" == "Employee[firstName: Jonathan";
    assert "Employee[firstName: Jonathan" + ", middleName: " == "Employee[firstName: Jonathan, middleName: ";
    assert "Employee[firstName: Jonathan, middleName: " + "null" == "Employee[firstName: Jonathan, middleName: null";
    assert "Employee[firstName: Jonathan, middleName: null" + ", lastName: " == "Employee[firstName: Jonathan, middleName: null, lastName: ";
    assert "Employee[firstName: Jonathan, middleName: null, lastName: " + "Doe" == "Employee[firstName: Jonathan, middleName: null, lastName: Doe";
    assert "Employee[firstName: Jonathan, middleName: null, lastName: Doe" + "]" == "Employee[firstName: Jonathan, middleName: null, lastName: Doe]";
  }

  lemma SalesJohnRendering()
    ensures DepartmentToString(Department("Sales", Employee("John", None, "Doe")))
         == "Department[name: Sales, manager: "
          + "Employee[firstName: John, middleName: null, lastName: Doe]" + "]"
  {
    JohnDoeEmployeeRendering();
    assert "Department[name: " + "Sales" == "Department[name: Sales";
    assert "Department[name: Sales" + ", manager: " == "Department[name: Sales, manager: ";
  }

  lemma SalesJonathanRendering()
    ensures DepartmentToString(Department("Sales", Employee("Jonathan", None, "Doe")))
         == "Department[name: Sales, manager: "
          + "Employee[firstName: Jonathan, middleName: null, lastName: Doe]" + "]"
  {
    JonathanDoeEmployeeRendering();
    assert "Department[name: " + "Sales" == "Department[name: Sales";
    assert "Department[name: Sales" + ", manager: " == "Department[name: Sales, manager: ";
  }

  lemma CircleFieldsValid()
    ensures CircleFields(10, 10, 10)
         == "[x: 10, y: 10, radius: 10]"
  {
    assert IntToString(10) == "10";
    assert "[x: " + "10" == "[x: 10";
    assert "[x: 10" + ", y: " == "[x: 10, y: ";
    assert "[x: 10, y: " + "10" == "[x: 10, y: 10";
    assert "[x: 10, y: 10" + ", radius: " == "[x: 10, y: 10, radius: ";
    assert "[x: 10, y: 10, radius: " + "10" == "[x: 10, y: 10, radius: 10";
    assert "[x: 10, y: 10, radius: 10" + "]" == "[x: 10, y: 10, radius: 10]";
  }

  lemma CircleFieldsNegative()
    ensures CircleFields(10, 10, -10)
         == "[x: 10, y: 10, radius: -10]"
  {
    assert IntToString(10) == "10";
    assert IntToString(-10) == "-10";
    assert "[x: " + "10" == "[x: 10";
    assert "[x: 10" + ", y: " == "[x: 10, y: ";
    assert "[x: 10, y: " + "10" == "[x: 10, y: 10";
    assert "[x: 10, y: 10" + ", radius: " == "[x: 10, y: 10, radius: ";
    assert "[x: 10, y: 10, radius: " + "-10" == "[x: 10, y: 10, radius: -10";
    assert "[x: 10, y: 10, radius: -10" + "]" == "[x: 10, y: 10, radius: -10]";
  }


  /** example01_Basic and example05_DefaultValue: no middle name, age -1. */
  lemma BasicExample()
    ensures NewPersonOf(Some("John"), Some("Doe")) == Success(Person("John", None, "Doe", -1))
    ensures PersonToString(NewPersonOf(Some("John"), Some("Doe")).value)
         == "Person[firstName: John, middleName: null, lastName: Doe, age: -1]"
  {
    JohnDoeRendering();
  }

  /** example02_FieldRead */
  lemma FieldReadExample()
    ensures NewPersonOf(Some("John"), Some("Doe")).value.firstName == "John"
    ensures NewPersonOf(Some("John"), Some("Doe")).value.lastName == "Doe"
  {
  }

  /** example03_FieldChange: the new person has the new last name, the old one keeps its own. */
  lemma FieldChangeExample()
    ensures PersonToString(WithLastName(Person("John", None, "Doe", -1), "Smith"))
         == "Person[firstName: John, middleName: null, lastName: Smith, age: -1]"
    ensures PersonToString(Person("John", None, "Doe", -1))
         == "Person[firstName: John, middleName: null, lastName: Doe, age: -1]"
  {
    JohnDoeRendering();
    JohnSmithRendering();
    assert WithLastName(Person("John", None, "Doe", -1), "Smith") == Person("John", None, "Smith", -1);
  }

  /** example03_HashEquals: equal fields give equal persons; another last name does not. */
  lemma EqualsExample()
    ensures PersonEquals(NewPersonOf(Some("John"), Some("Doe")).value, NewPersonOf(Some("John"), Some("Doe")).value)
    ensures !PersonEquals(NewPersonOf(Some("John"), Some("Doe")).value, NewPersonOf(Some("John"), Some("Smith")).value)
  {
    assert "Doe" != "Smith" by { assert |"Doe"| != |"Smith"|; }
  }

  /** example04_Null: a null last name is refused and no Person is made. */
  lemma NullExample()
    ensures NewPersonOf(Some("John"), None) == Failure(NullArgument("lastName"))
  {
  }

  /** example06_DefaultValue_withValue: an explicit 30 is kept, an explicit null becomes -1. */
  lemma DefaultValueExample()
    ensures NewPerson(Some("John"), None, Some("Doe"), Some(30)) == Success(Person("John", None, "Doe", 30))
    ensures NewPerson(Some("John"), None, Some("Doe"), None) == Success(Person("John", None, "Doe", -1))
    ensures PersonToString(Person("John", None, "Doe", 30))
         == "Person[firstName: John, middleName: null, lastName: Doe, age: 30]"
    ensures PersonToString(Person("John", None, "Doe", -1))
         == "Person[firstName: John, middleName: null, lastName: Doe, age: -1]"
  {
    JohnDoeRendering();
    JohnDoeThirtyRendering();
  }

  /** example07_Lens_Person */
  lemma EmployeeLensExample()
    ensures EmployeeFirstName().read(Employee("John", None, "Doe")) == "John"
    ensures EmployeeLastName().read(Employee("John", None, "Doe")) == "Doe"
    ensures EmployeeToString(ChangeTo(EmployeeFirstName(), "Jonathan")(Employee("John", None, "Doe")))
         == "Employee[firstName: Jonathan, middleName: null, lastName: Doe]"
  {
    assert ChangeTo(EmployeeFirstName(), "Jonathan")(Employee("John", None, "Doe")) == Employee("Jonathan", None, "Doe");
    JonathanDoeEmployeeRendering();
  }

  /** example07_Lens_Department: reading and writing through the nested lens. */
  lemma DepartmentLensExample()
    ensures DepartmentToString(Department("Sales", Employee("John", None, "Doe")))
         == "Department[name: Sales, manager: "
          + "Employee[firstName: John, middleName: null, lastName: Doe]" + "]"
    ensures ManagerFirstName().read(Department("Sales", Employee("John", None, "Doe"))) == "John"
    ensures ManagerLastName().read(Department("Sales", Employee("John", None, "Doe"))) == "Doe"
    ensures DepartmentToString(ChangeTo(ManagerFirstName(), "Jonathan")(Department("Sales", Employee("John", None, "Doe"))))
         == "Department[name: Sales, manager: "
          + "Employee[firstName: Jonathan, middleName: null, lastName: Doe]" + "]"
  {
    ManagerFirstNameReadWrite(Department("Sales", Employee("John", None, "Doe")), "Jonathan");
    SalesJohnRendering();
    SalesJonathanRendering();
  }

  function Departments(): seq<Department> {
    [ Department("Sales", Employee("John", None, "Doe")),
      Department("R&D", Employee("John", None, "Jackson")),
      Department("Support", Employee("Jack", None, "Johnson")) ]
  }

  lemma JacksonJohnsonJoined()
    ensures Joined(["Jackson", "Johnson"], (s: string) => s) == "Jackson, Johnson"
  {
    JoinedCons("Jackson", ["Johnson"], (s: string) => s);
    assert ["Jackson"] + ["Johnson"] == ["Jackson", "Johnson"];
    assert "Jackson" + ", " + "Johnson" == "Jackson, Johnson";
  }

  lemma DoeJacksonJohnsonJoined()
    ensures Joined(["Doe", "Jackson", "Johnson"], (s: string) => s) == "Doe, Jackson, Johnson"
  {
    JacksonJohnsonJoined();
    JoinedCons("Doe", ["Jackson", "Johnson"], (s: string) => s);
    assert ["Doe"] + ["Jackson", "Johnson"] == ["Doe", "Jackson", "Johnson"];
    assert "Doe" + ", " + "Jackson, Johnson" == "Doe, Jackson, Johnson";
  }

  /** The bracketed rendering of the three last names. */
  lemma DoeJacksonJohnsonBracketed()
    ensures "[" + "Doe, Jackson, Johnson" + "]" == "[Doe, Jackson, Johnson]"
  {
  }

  /** example07_Lens_List: mapping the nested accessor over a list. */
  lemma LensListExample()
    ensures Map(Departments(), ManagerLastName().read) == ["Doe", "Jackson", "Johnson"]
    ensures ListToString(["Doe", "Jackson", "Johnson"], (s: string) => s) == "[Doe, Jackson, Johnson]"
  {
    DoeJacksonJohnsonJoined();
    DoeJacksonJohnsonBracketed();
  }

  /** A tuple's toString: both parts in parentheses, separated by a comma. */
  function PairToString(t: (string, string)): (r: string)
    ensures |r| == |t.0| + |t.1| + 3
    ensures r[0] == '(' && r[1..1 + |t.0|] == t.0 && r[1 + |t.0|] == ','
    ensures r[2 + |t.0|..|r| - 1] == t.1 && r[|r| - 1] == ')'
  {
    "(" + t.0 + "," + t.1 + ")"
  }

  lemma SalesDoePairRendering()
    ensures PairToString(("Sales", "Doe")) == "(Sales,Doe)"
  {
    assert "(" + "Sales" == "(Sales";
    assert "(Sales" + "," == "(Sales,";
    assert "(Sales," + "Doe" == "(Sales,Doe";
    assert "(Sales,Doe" + ")" == "(Sales,Doe)";
  }

  lemma RdJacksonPairRendering()
    ensures PairToString(("R&D", "Jackson")) == "(R&D,Jackson)"
  {
    assert "(" + "R&D" == "(R&D";
    assert "(R&D" + "," == "(R&D,";
    assert "(R&D," + "Jackson" == "(R&D,Jackson";
    assert "(R&D,Jackson" + ")" == "(R&D,Jackson)";
  }

  /** The rendering of the two pairs example08 compares against. */
  lemma PairsRendering()
    ensures ListToString([("Sales", "Doe"), ("R&D", "Jackson")], PairToString) == "[(Sales,Doe), (R&D,Jackson)]"
  {
    SalesDoePairRendering();
    RdJacksonPairRendering();
    JoinedCons(("Sales", "Doe"), [("R&D", "Jackson")], PairToString);
    assert [("Sales", "Doe")] + [("R&D", "Jackson")] == [("Sales", "Doe"), ("R&D", "Jackson")];
    assert "(Sales,Doe)" + ", " == "(Sales,Doe), ";
    assert "(Sales,Doe), " + "(R&D,Jackson)" == "(Sales,Doe), (R&D,Jackson)";
    assert "[" + "(Sales,Doe), (R&D,Jackson)" == "[(Sales,Doe), (R&D,Jackson)";
    assert "[(Sales,Doe), (R&D,Jackson)" + "]" == "[(Sales,Doe), (R&D,Jackson)]";
  }

  /** example08_Lens_List_Filter: filter by the manager's first name, then
      pair each department's name with its manager's last name. */
  lemma LensListFilterExample()
    ensures Map(Filter(Departments(), ThatEquals(ManagerFirstName().read, "John")),
                (d: Department) => (DepartmentName()(d), ManagerLastName().read(d)))
         == [("Sales", "Doe"), ("R&D", "Jackson")]
    ensures ListToString([("Sales", "Doe"), ("R&D", "Jackson")], PairToString) == "[(Sales,Doe), (R&D,Jackson)]"
  {
    PairsRendering();
    var ds := Departments();
    var p := ThatEquals(ManagerFirstName().read, "John");
    assert p(ds[0]) && p(ds[1]);
    assert !p(ds[2]) by { assert "Jack"[2] != "John"[2]; }
    assert ds[1..][1..] == [ds[2]];
    assert Filter([ds[2]], p) == [];
    assert Filter(ds, p) == [ds[0], ds[1]];
    var pair := (d: Department) => (DepartmentName()(d), ManagerLastName().read(d));
    var r := Map([ds[0], ds[1]], pair);
    assert r[0] == pair(ds[0]) && r[1] == pair(ds[1]);
    assert ManagerLastName().read(ds[0]) == "Doe";
    assert ManagerLastName().read(ds[1]) == "Jackson";
    assert r == [("Sales", "Doe"), ("R&D", "Jackson")];
  }

  /** The two halves of the rejected Circle1's rendering, joined. */
  lemma Circle1NegativeJoined()
    ensures "Circle1" + "[x: 10, y: 10, radius: -10]" == "Circle1[x: 10, y: 10, radius: -10]"
  {
  }

  /** The two halves of the valid Circle1's rendering, joined. */
  lemma Circle1ValidJoined()
    ensures "Circle1" + "[x: 10, y: 10, radius: 10]" == "Circle1[x: 10, y: 10, radius: 10]"
  {
  }

  lemma Circle1NegativeRendering()
    ensures Circle1ToString(Circle1(10, 10, -10)) == "Circle1[x: 10, y: 10, radius: -10]"
  {
    CircleFieldsNegative();
    Circle1NegativeJoined();
  }

  /** example11_Validation_boolean: the failure message names the type and
      embeds the rejected circle's rendering. */
  lemma BooleanValidationExample()
    ensures NewCircle1(10, 10, 10) == Success(Circle1(10, 10, 10))
    ensures Circle1ToString(Circle1(10, 10, 10)) == "Circle1[x: 10, y: 10, radius: 10]"
    ensures Message(NewCircle1(10, 10, -10).error) == "Circle1: " + "Circle1[x: 10, y: 10, radius: -10]"
  {
    CircleFieldsValid();
    Circle1ValidJoined();
    Circle1NegativeRendering();
  }

  /** The two halves of the valid Circle2's rendering, joined. */
  lemma Circle2ValidJoined()
    ensures "Circle2" + "[x: 10, y: 10, radius: 10]" == "Circle2[x: 10, y: 10, radius: 10]"
  {
  }

  lemma Circle2ValidRendering()
    ensures Circle2ToString(Circle2(10, 10, 10)) == "Circle2[x: 10, y: 10, radius: 10]"
  {
    CircleFieldsValid();
    Circle2ValidJoined();
  }

  lemma Circle2NegativeMessage()
    ensures Message(NewCircle2(10, 10, -10).error) == "Radius cannot be less than zero: -10"
  {
    assert IntToString(-10) == "-10";
    assert "Radius cannot be less than zero: " + "-10" == "Radius cannot be less than zero: -10";
  }

  /** example12_Validation_String */
  lemma MessageValidationExample()
    ensures NewCircle2(10, 10, 10) == Success(Circle2(10, 10, 10))
    ensures Circle2ToString(Circle2(10, 10, 10)) == "Circle2[x: 10, y: 10, radius: 10]"
    ensures Message(NewCircle2(10, 10, -10).error) == "Radius cannot be less than zero: -10"
  {
    Circle2ValidRendering();
    Circle2NegativeMessage();
  }

  /** The two halves of the valid Circle3's rendering, joined. */
  lemma Circle3ValidJoined()
    ensures "Circle3" + "[x: 10, y: 10, radius: 10]" == "Circle3[x: 10, y: 10, radius: 10]"
  {
  }

  lemma Circle3ValidRendering()
    ensures Circle3ToString(Circle3(10, 10, 10)) == "Circle3[x: 10, y: 10, radius: 10]"
  {
    CircleFieldsValid();
    Circle3ValidJoined();
  }

  lemma Circle3NegativeMessage()
    ensures Message(NewCircle3(10, 10, -10).error) == "Radius: -10"
  {
    assert IntToString(-10) == "-10";
    assert "Radius: " + "-10" == "Radius: -10";
  }

  /** example13_Validation_Exception */
  lemma ErrorValidationExample()
    ensures NewCircle3(10, 10, 10) == Success(Circle3(10, 10, 10))
    ensures Circle3ToString(Circle3(10, 10, 10)) == "Circle3[x: 10, y: 10, radius: 10]"
    ensures NewCircle3(10, 10, -10) == Failure(NegativeRadius(-10))
    ensures Message(NewCircle3(10, 10, -10).error) == "Radius: -10"
  {
    Circle3ValidRendering();
    Circle3NegativeMessage();
  }
}
