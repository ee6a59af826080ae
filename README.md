# FunctionalJ examples, modelled in Dafny

This project models the example code of the FunctionalJ examples
repository: the types its tests declare and the behaviour its tests pin
down. The assertions of the modelled tests become lemmas or method
postconditions, next to general properties of the operations they
exercise; the assertions that are not modelled are listed under
"Left out".

- **Structs** (`structtypes.dfy`, module `StructTypes`). Person, Employee,
  Department and three Circles are records. Their constructors reject a
  null required field, fill a defaulted field, then run the struct's
  validator. The module also covers per-field updates (`withLastName`),
  field-wise equality, field lenses and their composition through a
  department's manager, and a builder class whose setters update its
  fields in place.
- **Choices** (`choice.dfy`, module `ChoiceTypes`). UpOrDown and
  LoginStatus are sum types, with renderings, `isX`, `asX`, and `ifX`
  callbacks that set a shared output cell. Pattern matching tries guarded
  login clauses in order, then one unguarded login clause, then a logout
  value.
- **Accessors and lenses** (`access.dfy`, module `Access`;
  `accesslens.dfy`, module `AccessLens`). A read accessor is a function
  and a lens pairs it with a write. Lenses compose, and `changeTo` writes
  a value. An accessor's length gives an integer accessor. `thatEquals`,
  `thatIsIn` and the strict `thatGreaterThan`/`thatLessThan` build
  predicates used as filters.
- **Persistent list and map** (`funccollections.dfy`, module
  `FuncCollections`). FuncList and FuncMap are values: `get`, `size`,
  `append`, `with`, `map`, `mapValue`, `filter`, `zipWith`, `sum` and the
  list rendering each return a new value. `add` and `put` are refused.
- **Streams and iterators** (`streamiterator.dfy`, module
  `StreamIterator`). `Hand.play` scores rock-paper-scissors, and the
  zipped score is summed. An iterator class keeps its read position in a
  field; `pullNext` and `mapNext` read chunks from it and advance it.
- **Extended struct** (`greeters.dfy`, module `Greeters`).
  `Greeter.greeting` on a FriendlyGuy, and its `shakeHand`, which does
  nothing.
- **Store** (`store.dfy`, module `Stores`). A cell whose `change` applies
  a list of functions in order, used with partially applied list appends.
- **Shared values** (`basics.dfy`, module `Basics`). Optional as an
  `Option`, and a `Result` for operations that throw. Java's `int` is the
  `Int32` range. Java's decimal rendering of ints is modelled together
  with its inverse.

Java's `null` is `None` where the source accepts it (nullable and
required struct fields, the builder's unset fields, an absent map key).
A thrown exception is a `Failure` carrying a `StructError` or a
`CollectionError`. A `toString()` is a function
returning a `string`.

## Model

| member | source | states |
|---|---|---|
| Basics.OrElse | src/test/java/example/functionalj/choice/ChoiceTypeExamples.java:84-85 | orElse yields the contained value when present and the fallback when empty |
| Basics.MapOption | src/test/java/example/functionalj/choice/ChoiceTypeExamples.java:84-85 | map applies the function inside a present value and leaves an empty one empty |
| Basics.IntToString | src/test/java/example/functionalj/structtype/StructTypeExamples.java:73 | the decimal rendering of an int is non-empty and starts with '-' exactly when the int is negative |
| Basics.IntToStringRoundTrip | src/test/java/example/functionalj/structtype/StructTypeExamples.java:73 | parsing an int's rendering gives the int back |
| Basics.IntToStringInjective | src/test/java/example/functionalj/structtype/StructTypeExamples.java:73 | distinct ints render to distinct strings |
| Access.Compose | src/test/java/example/functionalj/structtype/StructTypeExamples.java:169-172 | the composed accessor reads the inner field of the outer field and writes by replacing the inner field inside the outer one |
| Access.ComposeLawful | src/test/java/example/functionalj/structtype/StructTypeExamples.java:169-175 | composing two lawful lenses (get-put, put-get, put-put) gives a lawful lens |
| Access.ChangeTo | src/test/java/example/functionalj/structtype/StructTypeExamples.java:157 | changeTo(v) is the update that writes v through the lens |
| Access.ChangeToReads | src/test/java/example/functionalj/structtype/StructTypeExamples.java:157 | reading the field after changeTo(v) gives v |
| Access.Length | src/test/java/example/functionalj/accesslens/AccessLensExamples.java:60-63 | the length accessor yields the length of the string the accessor reads |
| Access.ThatEquals | src/test/java/example/functionalj/structtype/StructTypeExamples.java:197 | thatEquals(v) holds exactly for owners whose field equals v |
| Access.ThatIsIn | src/test/java/example/functionalj/choice/ChoiceTypeExamples.java:119 | thatIsIn(values) holds exactly for owners whose field is one of the values |
| Access.ThatGreaterThan | src/test/java/example/functionalj/accesslens/AccessLensExamples.java:72-73 | thatGreaterThan(n) holds exactly when the field is greater than n, and never when it equals n |
| Access.ThatLessThan | src/test/java/example/functionalj/accesslens/AccessLensExamples.java:94 | thatLessThan(n) holds exactly when the field is less than n, and never when it equals n |
| FuncCollections.Get | src/test/java/example/functionalj/list/ListMapExamples.java:55 | get(i) succeeds exactly for an index inside the list, giving the element at i; any other index fails with IndexOutOfBounds |
| FuncCollections.Append | src/test/java/example/functionalj/list/ListMapExamples.java:81 | append gives a list one longer with the old elements first, in order, and the new one last |
| FuncCollections.Add | src/test/java/example/functionalj/list/ListMapExamples.java:63 | add on an immutable list always fails with UnsupportedOperation |
| FuncCollections.Map | src/test/java/example/functionalj/list/ListMapExamples.java:94 | map keeps the length and transforms each element at its own position |
| FuncCollections.Filter | src/test/java/example/functionalj/accesslens/AccessLensExamples.java:86 | filter keeps only elements satisfying the predicate, never grows the list, and keeps every element that satisfies it |
| FuncCollections.FilterAppend | src/test/java/example/functionalj/accesslens/AccessLensExamples.java:86 | filtering a concatenation is concatenating the filtered parts, so filter keeps the order |
| FuncCollections.FilterAllPass | src/test/java/example/functionalj/accesslens/AccessLensExamples.java:86 | a filter every element passes returns the list unchanged |
| FuncCollections.AppendThenFilterOut | src/test/java/example/functionalj/list/ListMapExamples.java:81 | filtering out an appended new element gives back the original list |
| FuncCollections.ZipWith | src/test/java/example/functionalj/streamiterator/StreamPlusIteratorPlusExamples.java:39 | zipWith pairs elements at equal positions and stops at the shorter input |
| FuncCollections.Sum | src/test/java/example/functionalj/streamiterator/StreamPlusIteratorPlusExamples.java:39 | the sum of no elements is 0; a sum of non-negative elements is non-negative and of non-positive elements non-positive |
| FuncCollections.SumAppend | src/test/java/example/functionalj/streamiterator/StreamPlusIteratorPlusExamples.java:39 | the sum of a concatenation is the sum of the sums of its parts |
| FuncCollections.SumBounds | src/test/java/example/functionalj/streamiterator/StreamPlusIteratorPlusExamples.java:39 | a sum of n terms each within [lo, hi] lies within [n*lo, n*hi] |
| FuncCollections.ListToString | src/test/java/example/functionalj/list/ListMapExamples.java:45 | the empty list renders as [] and a one-element list as its element's rendering in brackets |
| FuncCollections.JoinedCons | src/test/java/example/functionalj/list/ListMapExamples.java:45 | joining a non-empty list is the first rendering, a comma and space, and the rest joined |
| FuncCollections.Lookup | src/test/java/example/functionalj/list/ListMapExamples.java:56 | get(k) is present exactly when k is a key and then gives its value |
| FuncCollections.With | src/test/java/example/functionalj/list/ListMapExamples.java:82 | with(k, v) has the old keys plus k, binds k to v, and leaves every other binding unchanged |
| FuncCollections.Put | src/test/java/example/functionalj/list/ListMapExamples.java:70 | put on an immutable map always fails with UnsupportedOperation |
| FuncCollections.MapValue | src/test/java/example/functionalj/list/ListMapExamples.java:95 | mapValue keeps the keys and transforms each value under its own key |
| FuncCollections.WithNewKeySize | src/test/java/example/functionalj/list/ListMapExamples.java:82-87 | with on a new key grows the map by exactly one entry |
| FuncCollections.MapValueCompose | src/test/java/example/functionalj/list/ListMapExamples.java:95 | two mapValue passes equal one pass with the composed function |
| FuncCollections.ListMapExample | src/test/java/example/functionalj/list/ListMapExamples.java:41-47 | [I, Me, Myself] renders as "[I, Me, Myself]" |
| FuncCollections.ReadOnlyExample | src/test/java/example/functionalj/list/ListMapExamples.java:49-57 | the list and the map have 3 elements, get(1) is Me, get(3) is out of bounds, and get(PI) is the PI value |
| FuncCollections.UnsupportedExample | src/test/java/example/functionalj/list/ListMapExamples.java:59-74 | add(We) and put(Ten, ..) are refused |
| FuncCollections.ImmutableModificationExample | src/test/java/example/functionalj/list/ListMapExamples.java:76-88 | append and with give the longer list and the 4-entry map while the originals keep 3 entries; the original list renders as "[I, Me, Myself]" and the new one as "[I, Me, Myself, First-Person]" |
| FuncCollections.FirstPersonRendering | src/test/java/example/functionalj/list/ListMapExamples.java:86 | [I, Me, Myself, First-Person] renders as "[I, Me, Myself, First-Person]" |
| FuncCollections.FunctionalExample | src/test/java/example/functionalj/list/ListMapExamples.java:94 | map(String::length) over [I, Me, Myself] is [1, 2, 6], which renders as "[1, 2, 6]" |
| StructTypes.NewPerson | src/test/java/example/functionalj/structtype/StructTypeExamples.java:45-52 | construction succeeds exactly when firstName and lastName are non-null (firstName is checked first), keeps the nullable middle name, and defaults a null age to -1 |
| StructTypes.NewPersonOf | src/test/java/example/functionalj/structtype/StructTypeExamples.java:93 | the two-argument constructor succeeds exactly when both names are non-null, fails only with a null-argument error, and gives a null middle name and age -1 |
| StructTypes.PersonToString | src/test/java/example/functionalj/structtype/StructTypeExamples.java:94 | a Person renders as "Person[firstName: " and the first name first, and ends with the age and "]" |
| StructTypes.PersonRenderingShowsAge | src/test/java/example/functionalj/structtype/StructTypeExamples.java:94 | the age can be parsed back from any Person rendering |
| StructTypes.WithLastName | src/test/java/example/functionalj/structtype/StructTypeExamples.java:109 | withLastName replaces the last name and keeps every other field |
| StructTypes.PersonLastName | src/test/java/example/functionalj/structtype/StructTypeExamples.java:101-109 | the lastName lens reads lastName(), writes with withLastName, and obeys the lens laws |
| StructTypes.PersonEquals | src/test/java/example/functionalj/structtype/StructTypeExamples.java:114-123 | equals holds exactly when all fields are equal |
| StructTypes.NewPersonOfDefaults | src/test/java/example/functionalj/structtype/StructTypeExamples.java:134-138 | the two-argument constructor gives a null middle name and age -1 for any names |
| StructTypes.NewEmployee | src/test/java/example/functionalj/structtype/StructTypeExamples.java:54-59 | construction succeeds exactly when both required names are non-null, with a null middle name; a null firstName fails with NullArgument(firstName), else a null lastName with NullArgument(lastName) |
| StructTypes.EmployeeToString | src/test/java/example/functionalj/structtype/StructTypeExamples.java:158 | an Employee renders as "Employee[firstName: " and the first name first, and ends with the last name and "]" |
| StructTypes.NewDepartment | src/test/java/example/functionalj/structtype/StructTypeExamples.java:61-64 | construction succeeds exactly when name and manager are non-null; a null name fails with NullArgument(name), else a null manager with NullArgument(manager) |
| StructTypes.DepartmentToString | src/test/java/example/functionalj/structtype/StructTypeExamples.java:166-167 | a Department renders as "Department[name: " and the name first, and ends with the manager's own rendering and "]" |
| StructTypes.EmployeeFirstName | src/test/java/example/functionalj/structtype/StructTypeExamples.java:154-157 | theEmployee.firstName reads the first name, writes only the first name, and obeys the lens laws |
| StructTypes.EmployeeLastName | src/test/java/example/functionalj/structtype/StructTypeExamples.java:155 | theEmployee.lastName reads the last name, writes only the last name, and obeys the lens laws |
| StructTypes.DepartmentName | src/test/java/example/functionalj/structtype/StructTypeExamples.java:198 | theDepartment.name reads the department name |
| StructTypes.DepartmentManager | src/test/java/example/functionalj/structtype/StructTypeExamples.java:169-172 | theDepartment.manager reads the manager, writes only the manager, and obeys the lens laws |
| StructTypes.ManagerFirstName | src/test/java/example/functionalj/structtype/StructTypeExamples.java:169-172 | theDepartment.manager.firstName reads the manager's first name and writes it leaving the department name and the manager's other fields unchanged |
| StructTypes.ManagerLastName | src/test/java/example/functionalj/structtype/StructTypeExamples.java:170 | theDepartment.manager.lastName reads the manager's last name and writes it leaving everything else unchanged |
| StructTypes.ManagerFirstNameReadWrite | src/test/java/example/functionalj/structtype/StructTypeExamples.java:169-172 | theDepartment.manager.firstName reads the manager's first name and writing through it changes only that name |
| StructTypes.ManagerLensesLawful | src/test/java/example/functionalj/structtype/StructTypeExamples.java:169-175 | the nested manager-name lenses obey the lens laws |
| StructTypes.PersonBuilder.constructor | src/test/java/example/functionalj/structtype/StructTypeExamples.java:204 | a new builder has every field unset |
| StructTypes.PersonBuilder.SetFirstName | src/test/java/example/functionalj/structtype/StructTypeExamples.java:205 | sets firstName and leaves the other collected fields alone |
| StructTypes.PersonBuilder.SetMiddleName | src/test/java/example/functionalj/structtype/StructTypeExamples.java:215 | sets middleName and leaves the other collected fields alone |
| StructTypes.PersonBuilder.SetLastName | src/test/java/example/functionalj/structtype/StructTypeExamples.java:206 | sets lastName and leaves the other collected fields alone |
| StructTypes.PersonBuilder.SetAge | src/test/java/example/functionalj/structtype/StructTypeExamples.java:51 | sets age and leaves the other collected fields alone |
| StructTypes.PersonBuilder.Build | src/test/java/example/functionalj/structtype/StructTypeExamples.java:207 | build gives what the full constructor gives for the collected fields, succeeding exactly when both names are set |
| StructTypes.BuilderExample | src/test/java/example/functionalj/structtype/StructTypeExamples.java:202-209 | the builder with John and Doe gives the same Person as new Person(John, Doe) |
| StructTypes.BuilderMiddleNameExample | src/test/java/example/functionalj/structtype/StructTypeExamples.java:211-219 | the builder keeps the middle name F and renders the expected string |
| StructTypes.CircleFields | src/test/java/example/functionalj/structtype/StructTypeExamples.java:224 | the circle fields render as "[x: " and x first, and end with the radius and "]" |
| StructTypes.CircleFieldsShowRadius | src/test/java/example/functionalj/structtype/StructTypeExamples.java:224-230 | the radius can be parsed back from any circle's field rendering |
| StructTypes.Circle1ToString | src/test/java/example/functionalj/structtype/StructTypeExamples.java:230 | a Circle1 renders as "Circle1" followed by its field list |
| StructTypes.Circle2ToString | src/test/java/example/functionalj/structtype/StructTypeExamples.java:238 | a Circle2 renders as "Circle2" followed by its field list |
| StructTypes.Circle3ToString | src/test/java/example/functionalj/structtype/StructTypeExamples.java:253 | a Circle3 renders as "Circle3" followed by its field list |
| StructTypes.Circle1Check | src/test/java/example/functionalj/structtype/StructTypeExamples.java:66-69 | the Circle1 validator holds exactly for a positive radius |
| StructTypes.Circle2Check | src/test/java/example/functionalj/structtype/StructTypeExamples.java:71-74 | the Circle2 validator gives null exactly for a positive radius, else "Radius cannot be less than zero: " and the radius |
| StructTypes.Circle3Check | src/test/java/example/functionalj/structtype/StructTypeExamples.java:76-81 | the Circle3 validator gives null exactly for a positive radius, else NegativeRadiusException carrying the radius |
| StructTypes.ValidateBool | src/test/java/example/functionalj/structtype/StructTypeExamples.java:66-69 | a false boolean validator fails with "Type: rendering"; true keeps the value |
| StructTypes.ValidateMessage | src/test/java/example/functionalj/structtype/StructTypeExamples.java:71-74 | a message validator fails with its message exactly when it returns one |
| StructTypes.ValidateError | src/test/java/example/functionalj/structtype/StructTypeExamples.java:76-81 | an exception validator fails with its exception exactly when it returns one |
| StructTypes.NewCircle1 | src/test/java/example/functionalj/structtype/StructTypeExamples.java:66-69 | a Circle1 exists exactly when radius > 0; otherwise it fails with a validation failure (Invalid) whose message is "Circle1: " followed by the circle's rendering |
| StructTypes.NewCircle2 | src/test/java/example/functionalj/structtype/StructTypeExamples.java:71-74 | a Circle2 exists exactly when radius > 0; otherwise the message names the radius |
| StructTypes.NewCircle3 | src/test/java/example/functionalj/structtype/StructTypeExamples.java:76-88 | a Circle3 exists exactly when radius > 0; otherwise the failure is NegativeRadius with message "Radius: <radius>" |
| StructTypes.CircleValidatorsAgree | src/test/java/example/functionalj/structtype/StructTypeExamples.java:66-81 | the three validators, and so the three validator styles, accept exactly the same circles |
| StructTypes.CircleMessageNamesRadius | src/test/java/example/functionalj/structtype/StructTypeExamples.java:71-88 | the rejected radius can be read back from the Circle2 and Circle3 messages |
| StructTypes.JohnDoeRendering | src/test/java/example/functionalj/structtype/StructTypeExamples.java:94 | Person(John, null, Doe, -1) renders as in the test |
| StructTypes.JohnSmithRendering | src/test/java/example/functionalj/structtype/StructTypeExamples.java:111 | Person(John, null, Smith, -1) renders as in the test |
| StructTypes.JohnDoeThirtyRendering | src/test/java/example/functionalj/structtype/StructTypeExamples.java:144 | Person(John, null, Doe, 30) renders as in the test |
| StructTypes.JohnFKookiesRendering | src/test/java/example/functionalj/structtype/StructTypeExamples.java:218 | Person(John, F, Kookies, -1) renders as in the test |
| StructTypes.JohnDoeEmployeeRendering | src/test/java/example/functionalj/structtype/StructTypeExamples.java:166 | Employee(John, null, Doe) renders as in the test |
| StructTypes.JonathanDoeEmployeeRendering | src/test/java/example/functionalj/structtype/StructTypeExamples.java:158 | Employee(Jonathan, null, Doe) renders as in the test |
| StructTypes.SalesJohnRendering | src/test/java/example/functionalj/structtype/StructTypeExamples.java:165-167 | the Sales department renders with its manager's rendering inside |
| StructTypes.SalesJonathanRendering | src/test/java/example/functionalj/structtype/StructTypeExamples.java:173-175 | the changed Sales department renders with the new manager name |
| StructTypes.CircleFieldsValid | src/test/java/example/functionalj/structtype/StructTypeExamples.java:224 | the fields of a circle (10, 10, 10) render as [x: 10, y: 10, radius: 10] |
| StructTypes.CircleFieldsNegative | src/test/java/example/functionalj/structtype/StructTypeExamples.java:230 | the fields of a circle (10, 10, -10) render with radius -10 |
| StructTypes.Circle1NegativeRendering | src/test/java/example/functionalj/structtype/StructTypeExamples.java:230 | Circle1(10, 10, -10) renders as in the expected message |
| StructTypes.BasicExample | src/test/java/example/functionalj/structtype/StructTypeExamples.java:91-95 | new Person(John, Doe) is John, null, Doe, -1 and renders so |
| StructTypes.FieldReadExample | src/test/java/example/functionalj/structtype/StructTypeExamples.java:97-104 | the fields read back as John and Doe |
| StructTypes.FieldChangeExample | src/test/java/example/functionalj/structtype/StructTypeExamples.java:106-112 | withLastName(Smith) renders with Smith while the original still renders with Doe |
| StructTypes.EqualsExample | src/test/java/example/functionalj/structtype/StructTypeExamples.java:114-123 | equal fields are equal, another last name is not |
| StructTypes.NullExample | src/test/java/example/functionalj/structtype/StructTypeExamples.java:125-132 | a null last name is refused |
| StructTypes.DefaultValueExample | src/test/java/example/functionalj/structtype/StructTypeExamples.java:140-149 | an explicit age 30 is kept, a null age becomes -1, and both render as in the test |
| StructTypes.EmployeeLensExample | src/test/java/example/functionalj/structtype/StructTypeExamples.java:151-159 | the employee lenses read John and Doe, and changeTo(Jonathan) renders as in the test |
| StructTypes.DepartmentLensExample | src/test/java/example/functionalj/structtype/StructTypeExamples.java:161-176 | the nested lenses read and change the manager's name inside the department |
| StructTypes.LensListExample | src/test/java/example/functionalj/structtype/StructTypeExamples.java:178-186 | mapping the nested last-name lens gives [Doe, Jackson, Johnson], rendered as in the test |
| StructTypes.SalesDoePairRendering | src/test/java/example/functionalj/structtype/StructTypeExamples.java:195 | the pair (Sales, Doe) renders as (Sales,Doe) |
| StructTypes.RdJacksonPairRendering | src/test/java/example/functionalj/structtype/StructTypeExamples.java:195 | the pair (R&D, Jackson) renders as (R&D,Jackson) |
| StructTypes.PairToString | src/test/java/example/functionalj/structtype/StructTypeExamples.java:195 | a pair renders as its two parts between parentheses, separated by a comma |
| StructTypes.PairsRendering | src/test/java/example/functionalj/structtype/StructTypeExamples.java:195 | the two pairs render as [(Sales,Doe), (R&D,Jackson)] |
| StructTypes.LensListFilterExample | src/test/java/example/functionalj/structtype/StructTypeExamples.java:188-200 | filtering by manager first name John and pairing name with manager last name gives the two expected pairs |
| StructTypes.BooleanValidationExample | src/test/java/example/functionalj/structtype/StructTypeExamples.java:221-233 | Circle1(10,10,10) is built; Circle1(10,10,-10) fails with "Circle1: Circle1[x: 10, y: 10, radius: -10]" |
| StructTypes.MessageValidationExample | src/test/java/example/functionalj/structtype/StructTypeExamples.java:235-248 | Circle2(10,10,10) is built; Circle2(10,10,-10) fails with the radius message |
| StructTypes.Circle2ValidRendering | src/test/java/example/functionalj/structtype/StructTypeExamples.java:238 | Circle2(10, 10, 10) renders as "Circle2[x: 10, y: 10, radius: 10]" |
| StructTypes.Circle2NegativeMessage | src/test/java/example/functionalj/structtype/StructTypeExamples.java:241-246 | Circle2(10, 10, -10) fails with "Radius cannot be less than zero: -10" |
| StructTypes.ErrorValidationExample | src/test/java/example/functionalj/structtype/StructTypeExamples.java:250-263 | Circle3(10,10,10) is built; Circle3(10,10,-10) fails with NegativeRadius(-10) and "Radius: -10" |
| StructTypes.Circle3ValidRendering | src/test/java/example/functionalj/structtype/StructTypeExamples.java:253 | Circle3(10, 10, 10) renders as "Circle3[x: 10, y: 10, radius: 10]" |
| StructTypes.Circle3NegativeMessage | src/test/java/example/functionalj/structtype/StructTypeExamples.java:256-261 | Circle3(10, 10, -10) fails with the message "Radius: -10" |
| ChoiceTypes.UpOrDownToString | src/test/java/example/functionalj/choice/ChoiceTypeExamples.java:42-46 | Up renders as "Up" and Down as "Down" |
| ChoiceTypes.UpOrDownToStringInjective | src/test/java/example/functionalj/choice/ChoiceTypeExamples.java:42-46 | the rendering identifies the case |
| ChoiceTypes.LoginStatusToString | src/test/java/example/functionalj/choice/ChoiceTypeExamples.java:48-52 | Logout renders as "Logout"; Login(u) as "Login(", u and ")" |
| ChoiceTypes.LoginStatusToStringInjective | src/test/java/example/functionalj/choice/ChoiceTypeExamples.java:48-52 | equal renderings come from equal statuses |
| ChoiceTypes.IsLogin | src/test/java/example/functionalj/choice/ChoiceTypeExamples.java:70-78 | isLogin holds exactly for Login statuses, and exactly when isLogout does not |
| ChoiceTypes.IsLogout | src/test/java/example/functionalj/choice/ChoiceTypeExamples.java:70-78 | isLogout holds exactly for Logout |
| ChoiceTypes.AsLogin | src/test/java/example/functionalj/choice/ChoiceTypeExamples.java:80-86 | asLogin is present exactly for a Login and is then the status itself |
| ChoiceTypes.AsLoginRendering | src/test/java/example/functionalj/choice/ChoiceTypeExamples.java:84-85 | asLogin().map(String::valueOf).orElse(x) is the rendering of a Login and x for Logout |
| ChoiceTypes.IfLogin | src/test/java/example/functionalj/choice/ChoiceTypeExamples.java:92-93 | ifLogin runs the handler only for a Login, and returns the status for chaining |
| ChoiceTypes.IfLogout | src/test/java/example/functionalj/choice/ChoiceTypeExamples.java:94 | ifLogout runs its action only for Logout, and returns the status for chaining |
| ChoiceTypes.IfXExample | src/test/java/example/functionalj/choice/ChoiceTypeExamples.java:88-96 | after ifLogin then ifLogout on Login(root) the output is "User: root" |
| ChoiceTypes.FirstMatch | src/test/java/example/functionalj/choice/ChoiceTypeExamples.java:117-121 | the chosen clause is the first whose guard holds; none is chosen exactly when no guard holds |
| ChoiceTypes.Match | src/test/java/example/functionalj/choice/ChoiceTypeExamples.java:117-121 | Logout always gives the logout value |
| ChoiceTypes.MatchFirstClauseWins | src/test/java/example/functionalj/choice/ChoiceTypeExamples.java:117-121 | a Login goes to the first clause whose guard holds |
| ChoiceTypes.MatchOtherwise | src/test/java/example/functionalj/choice/ChoiceTypeExamples.java:120 | a Login no guard accepts goes to the unguarded login clause |
| ChoiceTypes.Describe | src/test/java/example/functionalj/choice/ChoiceTypeExamples.java:100-104 | every Login(u) gives "User: " + u and Logout gives "Guess" |
| ChoiceTypes.TheLoginUserName | src/test/java/example/functionalj/choice/ChoiceTypeExamples.java:118-119 | theLogin.userName reads the login's user name |
| ChoiceTypes.Role | src/test/java/example/functionalj/choice/ChoiceTypeExamples.java:116-122 | Logout is Guess; a login named root is Administrator, else one named in the moderators (Jack, John) is Moderator, else "User: " + name, the clauses tried in order |
| ChoiceTypes.ChoicesExample | src/test/java/example/functionalj/choice/ChoiceTypeExamples.java:54-60 | Up and Down render as their names |
| ChoiceTypes.PayloadExample | src/test/java/example/functionalj/choice/ChoiceTypeExamples.java:62-86 | Login(root) renders as "Login(root)", Logout as "Logout", and asLogin falls back to "Not login" for Logout |
| ChoiceTypes.IsXExample | src/test/java/example/functionalj/choice/ChoiceTypeExamples.java:70-78 | isLogin/isLogout answer as in the test |
| ChoiceTypes.PatternMatchingExample | src/test/java/example/functionalj/choice/ChoiceTypeExamples.java:98-111 | root gives "User: root", Logout gives "Guess" |
| ChoiceTypes.PatternMatchingWithPayloadExample | src/test/java/example/functionalj/choice/ChoiceTypeExamples.java:113-131 | root gives Administrator, Jack gives Moderator, Logout gives Guess |
| AccessLens.UserName | src/test/java/example/functionalj/accesslens/AccessLensExamples.java:101-116 | theUser.name reads the name and writes a User with the new name |
| AccessLens.UserToString | src/test/java/example/functionalj/accesslens/AccessLensExamples.java:87 | a User renders as "User[name: ", its name and "]" |
| AccessLens.UserToStringInjective | src/test/java/example/functionalj/accesslens/AccessLensExamples.java:87 | equal renderings come from equal users |
| AccessLens.UserNameLawful | src/test/java/example/functionalj/accesslens/AccessLensExamples.java:108-116 | theUser.name obeys the lens laws |
| AccessLens.TheString | src/test/java/example/functionalj/accesslens/AccessLensExamples.java:94-95 | theString reads a string as itself |
| AccessLens.ComparisonsPartition | src/test/java/example/functionalj/accesslens/AccessLensExamples.java:90-99 | thatLessThan, thatEquals and thatGreaterThan split any list into parts whose sizes sum to its size |
| AccessLens.AccessExample | src/test/java/example/functionalj/accesslens/AccessLensExamples.java:46-64 | the name of User(John) is John and its length 4 |
| AccessLens.CompareExample | src/test/java/example/functionalj/accesslens/AccessLensExamples.java:66-74 | length 4 is not greater than 4; NawaMan's is |
| AccessLens.StreamExample | src/test/java/example/functionalj/accesslens/AccessLensExamples.java:76-88 | filtering names longer than 4 keeps only NawaMan, rendered as in the test |
| AccessLens.CommonAccessExample | src/test/java/example/functionalj/accesslens/AccessLensExamples.java:90-99 | shorter than 4 keeps [Ben], longer than 4 keeps [David] |
| AccessLens.LensReadExample | src/test/java/example/functionalj/accesslens/AccessLensExamples.java:101-106 | the lens reads John |
| AccessLens.LensChangeExample | src/test/java/example/functionalj/accesslens/AccessLensExamples.java:108-116 | the written user renders with Jack while the original renders with John |
| StreamIterator.Play | src/test/java/example/functionalj/streamiterator/StreamPlusIteratorPlusExamples.java:19-29 | play is -1, 0 or 1 and is 0 exactly for equal hands |
| StreamIterator.PlayAntisymmetric | src/test/java/example/functionalj/streamiterator/StreamPlusIteratorPlusExamples.java:19-29 | play(a, b) == -play(b, a) |
| StreamIterator.PlayIsCyclic | src/test/java/example/functionalj/streamiterator/StreamPlusIteratorPlusExamples.java:23-26 | each hand beats the hand declared just before it in the cycle Rock, Paper, Scissors |
| StreamIterator.EachHandBeatsOne | src/test/java/example/functionalj/streamiterator/StreamPlusIteratorPlusExamples.java:24-26 | each hand beats exactly one hand and loses to exactly one |
| StreamIterator.Score | src/test/java/example/functionalj/streamiterator/StreamPlusIteratorPlusExamples.java:39 | the zipped score lies between minus and plus the number of rounds both players played |
| StreamIterator.ScoreAntisymmetric | src/test/java/example/functionalj/streamiterator/StreamPlusIteratorPlusExamples.java:39 | swapping the players negates the score |
| StreamIterator.CombineExample | src/test/java/example/functionalj/streamiterator/StreamPlusIteratorPlusExamples.java:32-40 | [Paper, Paper, Rock] against [Rock, Paper, Scissors] scores 2 |
| StreamIterator.ByteValue | src/test/java/example/functionalj/streamiterator/StreamPlusIteratorPlusExamples.java:45 | byteValue lies in -128..127 and agrees with the int modulo 256 |
| StreamIterator.ByteValueInRange | src/test/java/example/functionalj/streamiterator/StreamPlusIteratorPlusExamples.java:45 | byteValue keeps a value already in byte range |
| StreamIterator.DecodeAscii | src/test/java/example/functionalj/streamiterator/StreamPlusIteratorPlusExamples.java:45 | one character per byte; a non-negative byte is the character with that code |
| StreamIterator.DecodeAsciiCodes | src/test/java/example/functionalj/streamiterator/StreamPlusIteratorPlusExamples.java:45 | decoding the codes of an ASCII string gives the string back |
| StreamIterator.BytesToString | src/test/java/example/functionalj/streamiterator/StreamPlusIteratorPlusExamples.java:45 | the decoded chunk has one character per element: the character whose code is the element's byte value when that is non-negative, U+FFFD otherwise |
| StreamIterator.PullIterator.constructor | src/test/java/example/functionalj/streamiterator/StreamPlusIteratorPlusExamples.java:44 | a new iterator is at the start of its elements |
| StreamIterator.PullIterator.PullNext | src/test/java/example/functionalj/streamiterator/StreamPlusIteratorPlusExamples.java:46-47 | pullNext(n) returns the next n elements and moves past them |
| StreamIterator.PullIterator.MapNext | src/test/java/example/functionalj/streamiterator/StreamPlusIteratorPlusExamples.java:45 | mapNext(n, f) returns f of the next n elements and moves past them |
| StreamIterator.VariantReadExample | src/test/java/example/functionalj/streamiterator/StreamPlusIteratorPlusExamples.java:42-51 | the reads give "Nawa", then [0, 2], then [0, 1] |
| StreamIterator.VersionRenderingExample | src/test/java/example/functionalj/streamiterator/StreamPlusIteratorPlusExamples.java:49-50 | the version lists render as "[0, 2]" and "[0, 1]" |
| Greeters.Greeting | src/test/java/example/functionalj/structtype/StructExtendFormTest.java:39-41 | the greeting is the greet word, a space, the name and "!" |
| Greeters.GreetingInjective | src/test/java/example/functionalj/structtype/StructExtendFormTest.java:39-41 | the name can be recovered from the greeting |
| Greeters.ShakeHand | src/test/java/example/functionalj/structtype/StructExtendFormTest.java:47 | shakeHand changes nothing |
| Greeters.ShakeHandKeepsGreeting | src/test/java/example/functionalj/structtype/StructExtendFormTest.java:47 | after a handshake the greeting is unchanged |
| Greeters.ExtendsExample | src/test/java/example/functionalj/structtype/StructExtendFormTest.java:50-54 | FriendlyGuy(Hi) greets Bruce Wayne with "Hi Bruce Wayne!" |
| Stores.ApplyAllSnoc | src/test/java/example/functionalj/effect/EffectExamples.java:97-103 | applying one more change at the end applies it to the result so far |
| Stores.ApplyAllConcat | src/test/java/example/functionalj/effect/EffectExamples.java:97-103 | two changes in a row equal one change with both function lists |
| Stores.Store.constructor | src/test/java/example/functionalj/effect/EffectExamples.java:93 | a new store holds the initial value |
| Stores.Store.Value | src/test/java/example/functionalj/effect/EffectExamples.java:95 | value() is the value the store currently holds |
| Stores.Store.Change | src/test/java/example/functionalj/effect/EffectExamples.java:97-103 | change applies the functions in order, each to the value the previous left |
| Stores.AppendFn | src/test/java/example/functionalj/effect/EffectExamples.java:90 | apppend.applyTo(s) appends s to any list |
| Stores.ApplyAppendsStep | src/test/java/example/functionalj/effect/EffectExamples.java:90-103 | the first append extends the list by the first string |
| Stores.ApplyAppends | src/test/java/example/functionalj/effect/EffectExamples.java:90-104 | the appends of some strings, applied in order, extend the list by those strings in that order |
| Stores.StoreExample | src/test/java/example/functionalj/effect/EffectExamples.java:88-105 | the store starts as [One, Two] and ends as [One, Two, Three, Four, Five, Six] |
| Stores.StoreRenderingExample | src/test/java/example/functionalj/effect/EffectExamples.java:95 | [One, Two] renders as "[One, Two]" |
| Stores.StoreChangedRenderingExample | src/test/java/example/functionalj/effect/EffectExamples.java:104 | the changed list renders as "[One, Two, Three, Four, Five, Six]" |

## Left out

- hashCode of the generated structs is not modelled, because the generated code is not part of this model; the hashCode assertions of example03_HashEquals are left out, and equality is modelled through equals.
- The generated struct, choice, accessor, FuncList, FuncMap, Store and IteratorPlus classes are not part of this model. Their behaviour is taken from what the examples assert.
- The numerical-method demos, the asynchronous effect examples (tasks, word counts, file reads), the Pipeable, Result and Ref examples, and code generation are outside the modelled core.
- FuncMap's values in the list/map examples are doubles. They are an abstract type parameter here, so the map renderings ("{E:2.71828, ...}"), their key ordering, and mapValue(Math::round) are not modelled; mapValue is modelled for an arbitrary function.
- exampleImmutable (list/ListMapExamples.java:98-107) is not modelled: it filters with a random predicate, and what it asserts is that a lazily evaluated list is not equal to itself while its materialised copy is; randomness and lazy re-evaluation have no counterpart in a model of lists as values.
- StructTypes.WithLastName: withLastName and the lens writes (theEmployee.firstName.changeTo, theDepartment.manager.firstName.changeTo) take non-null strings here; writing null into a required field is not modelled.
- Java exception class names in exception strings ("functionalj.result.ValidationException: ...") are not modelled. The model keeps the kind of failure and its message.
- StructTypes.NewPerson: the Java constructor throws a NullPointerException without a field name. The model records which field was null. This is an addition, not a weakening.
- StructTypes.PersonBuilder.SetFirstName: the builder setters take non-null strings; a null passed to a builder setter is not modelled.
- ChoiceTypes.LoginStatusToString: a null userName inside Login is not modelled; the payload is always a string.
- ChoiceTypes.IfLogin: the handler is modelled as the value it stores in the output reference. Other side effects a Java Consumer could have are not modelled.
- ChoiceTypes.Match: the clause types of FunctionalJ's match builder are narrowed to what the example uses: guarded login clauses with a result function, one unguarded login clause, then a logout value.
- FuncCollections.SumBounds: sum() is unbounded here; 32-bit overflow of IntStream.sum is not modelled (the example sums three values in -1..1).
- Access.Length: String.length() counts UTF-16 code units; the model counts characters, which agree for the ASCII names used.
- StreamIterator.DecodeAscii: new String(bytes) is modelled for single-byte characters only; multi-byte UTF-8 sequences are not decoded. A negative byte becomes U+FFFD.
- StreamIterator.PullIterator.PullNext: what pullNext returns when fewer than n elements remain is not pinned by the example. The model consumes the rest and returns nothing.
- StreamIterator.Play: the IllegalArgumentException after the switch cannot be reached, because the match over the three hands is exhaustive; it has no counterpart in the model.
- Greeters.Greeting: Greeter is an abstract class extended by the struct; the model fixes greetWord to the struct's field and does not model other subclasses.
