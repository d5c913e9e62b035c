/**
 * `CheckRoleLogger`: the debug report of the `@CheckRole` settings of the
 * action methods.  Each reported method gives one tab-separated row per
 * declared role (one row with empty role and anyOf when it is not
 * annotated); the rows are sorted and written under a title and a header.
 * The classpath scanning that finds the methods is not modelled: the
 * methods come in as descriptors, and the class-name pattern as a predicate.
 */
module CheckRoleLogger {
  import opened Base
  import opened StringOrder
  import CheckRole

  /** `SEP`: the field separator of a row. */
  const Sep := "\t"

  /** `TITLE`. */
  const Title := "CheckRole Annotation Settings"

  /** `HEADER`: the column names joined by `SEP`. */
  const Header := Join(Sep, ["class", "signature", "role", "anyOf"])

  /** The default `targetClassPattern`: classes whose name ends in "Action". */
  const DefaultTargetClassPattern := "^.*Action$"

  /** What the report reads of a `java.lang.reflect.Method`. */
  datatype MethodDescriptor = MethodDescriptor(
    declaringClass: string,             // getDeclaringClass().getName()
    name: string,                       // getName()
    parameterTypeNames: seq<string>,    // getName() of each of getParameterTypes()
    isPublic: bool,
    isStatic: bool,
    checkRole: Option<CheckRole.Annotation>)

  /** `TargetMethodFinder.isTargetMethod`: public instance methods only. */
  predicate IsTargetMethod(m: MethodDescriptor)
  {
    m.isPublic && !m.isStatic
  }

  /**
   * The methods that are reported: the declared methods of the classes whose
   * name the class pattern matches, restricted to public instance methods,
   * in the order they are found.
   */
  function TargetMethods(declared: seq<MethodDescriptor>, classMatches: string -> bool): (r: seq<MethodDescriptor>)
    ensures forall m :: m in r <==> m in declared && classMatches(m.declaringClass) && IsTargetMethod(m)
    ensures forall m :: multiset(r)[m] == if classMatches(m.declaringClass) && IsTargetMethod(m) then multiset(declared)[m] else 0
    ensures |r| <= |declared|
  {
    if declared == [] then []
    else
      var rest := TargetMethods(declared[..|declared| - 1], classMatches);
      var m := declared[|declared| - 1];
      assert declared == declared[..|declared| - 1] + [m];
      if classMatches(m.declaringClass) && IsTargetMethod(m) then rest + [m] else rest
  }

  /** One row of the report: a method with one of its roles, or with none. */
  datatype AnnotationSettings = AnnotationSettings(target: MethodDescriptor, role: string, anyOf: string)

  /** `new AnnotationSettings(method)`, for a method without `@CheckRole`. */
  function Unannotated(m: MethodDescriptor): (r: AnnotationSettings)
    ensures r.target == m && r.role == "" && r.anyOf == ""
  {
    AnnotationSettings(m, "", "")
  }

  /** `new AnnotationSettings(method, role, anyOf)`, for one declared role. */
  function Annotated(m: MethodDescriptor, role: string, anyOf: bool): (r: AnnotationSettings)
    ensures r.target == m && r.role == role
    ensures r.anyOf == "true" || r.anyOf == "false"
    ensures r.anyOf == "true" <==> anyOf
  {
    AnnotationSettings(m, role, BooleanToString(anyOf))
  }

  /** The signature of a method: its name and its parameter type names. */
  function Signature(m: MethodDescriptor): string
  {
    m.name + "(" + Join(", ", m.parameterTypeNames) + ")"
  }

  /** The row of one settings value: class, signature, role and anyOf, tab-separated. */
  function Row(s: AnnotationSettings): string
  {
    Join(Sep, [s.target.declaringClass, Signature(s.target), s.role, s.anyOf])
  }

  /** `AnnotationSettings.formatMethodSignature()`. */
  method FormatMethodSignature(m: MethodDescriptor) returns (signature: string)
    ensures signature == Signature(m)
  {
    var parameterTypeNames: seq<string> := [];
    for i := 0 to |m.parameterTypeNames|
      invariant parameterTypeNames == m.parameterTypeNames[..i]
    {
      parameterTypeNames := parameterTypeNames + [m.parameterTypeNames[i]];
    }
    assert parameterTypeNames == m.parameterTypeNames;
    signature := m.name + "(" + Join(", ", parameterTypeNames) + ")";
  }

  /** `AnnotationSettings.format()`. */
  method Format(s: AnnotationSettings) returns (row: string)
    ensures row == Row(s)
  {
    var signature := FormatMethodSignature(s.target);
    row := Join(Sep, [s.target.declaringClass, signature, s.role, s.anyOf]);
  }

  /** The rows of the given roles of an annotated method, in declaration order. */
  function RoleRows(m: MethodDescriptor, roles: seq<string>, anyOf: bool): (r: seq<string>)
    ensures |r| == |roles|
  {
    if roles == [] then []
    else RoleRows(m, roles[..|roles| - 1], anyOf) + [Row(Annotated(m, roles[|roles| - 1], anyOf))]
  }

  /** The j-th row of an annotated method is the row of its j-th role. */
  lemma {:induction false} RoleRowsIndex(m: MethodDescriptor, roles: seq<string>, anyOf: bool, j: int)
    requires 0 <= j < |roles|
    ensures RoleRows(m, roles, anyOf)[j] == Row(Annotated(m, roles[j], anyOf))
  {
    var n := |roles| - 1;
    if j < n {
      RoleRowsIndex(m, roles[..n], anyOf, j);
    }
  }

  /** The rows one method contributes. */
  function MethodRows(m: MethodDescriptor): seq<string>
  {
    match m.checkRole
    case None => [Row(Unannotated(m))]
    case Some(annotation) => RoleRows(m, annotation.value, annotation.anyOf)
  }

  /** The rows of the methods, method by method, before sorting. */
  function AllRows(methods: seq<MethodDescriptor>): seq<string>
  {
    FlatMap(methods, MethodRows)
  }

  /**
   * `formatMethodSettings(targetMethods)`: the rows of all methods, sorted.
   * The result is the sorted permutation of the rows the methods contribute.
   */
  method FormatMethodSettings(targetMethods: seq<MethodDescriptor>) returns (formattedSettings: seq<string>)
    ensures Sorted(formattedSettings)
    ensures multiset(formattedSettings) == multiset(AllRows(targetMethods))
    ensures formattedSettings == SortSpec(AllRows(targetMethods))
  {
    formattedSettings := [];
    for i := 0 to |targetMethods|
      invariant formattedSettings == AllRows(targetMethods[..i])
    {
      var m := targetMethods[i];
      assert targetMethods[..i + 1][..i] == targetMethods[..i];
      match m.checkRole {
        case None =>
          var settings := Unannotated(m);
          var row := Format(settings);
          formattedSettings := formattedSettings + [row];
        case Some(checkRole) =>
          var before := formattedSettings;
          for j := 0 to |checkRole.value|
            invariant formattedSettings == before + RoleRows(m, checkRole.value[..j], checkRole.anyOf)
          {
            var settings := Annotated(m, checkRole.value[j], checkRole.anyOf);
            var row := Format(settings);
            assert checkRole.value[..j + 1][..j] == checkRole.value[..j];
            formattedSettings := formattedSettings + [row];
          }
          assert checkRole.value[..|checkRole.value|] == checkRole.value;
      }
    }
    assert targetMethods[..|targetMethods|] == targetMethods;
    formattedSettings := Sort(formattedSettings);
  }

  /** The logged message: title, header and rows, one per line. */
  function Message(lineSep: string, rows: seq<string>): string
  {
    Title + lineSep + Header + lineSep + Join(lineSep, rows)
  }

  /**
   * `initialize()`: nothing is logged unless debug logging is enabled;
   * otherwise the message over the sorted rows of the target methods.
   * `lineSep` is the `line.separator` system property.
   */
  method Initialize(debugEnabled: bool, lineSep: string, declared: seq<MethodDescriptor>,
                    classMatches: string -> bool) returns (logged: Option<string>)
    ensures !debugEnabled ==> logged == None
    ensures debugEnabled ==> logged == Some(Message(lineSep, SortSpec(AllRows(TargetMethods(declared, classMatches)))))
  {
    if !debugEnabled {
      return None;
    }
    var targetMethods := TargetMethods(declared, classMatches);
    var formattedSettings := FormatMethodSettings(targetMethods);
    logged := Some(Message(lineSep, formattedSettings));
  }

  /** The header names the four columns, tab-separated. */
  lemma HeaderText()
    ensures Header == "class\tsignature\trole\tanyOf"
  {
  }

  /** A row belongs to the report exactly when some method contributes it. */
  lemma RowsOfMethods(methods: seq<MethodDescriptor>, row: string)
    ensures row in AllRows(methods) <==> exists i | 0 <= i < |methods| :: row in MethodRows(methods[i])
  {
    FlatMapMember(methods, MethodRows, row);
  }

  /**
   * An unannotated method gives exactly one row, whose fields are its class,
   * its signature and two empty fields.
   */
  lemma UnannotatedSingleRow(m: MethodDescriptor)
    requires m.checkRole.None?
    requires '\t' !in m.declaringClass && '\t' !in Signature(m)
    ensures |MethodRows(m)| == 1
    ensures Split(MethodRows(m)[0], '\t') == [m.declaringClass, Signature(m), "", ""]
  {
    SplitJoin([m.declaringClass, Signature(m), "", ""], '\t');
  }

  /**
   * An annotated method gives one row per declared role, in declaration
   * order, each with the role and anyOf rendered as "true" or "false".
   */
  lemma AnnotatedRowPerRole(m: MethodDescriptor, j: int)
    requires m.checkRole.Some? && 0 <= j < |m.checkRole.value.value|
    requires '\t' !in m.declaringClass && '\t' !in Signature(m) && '\t' !in m.checkRole.value.value[j]
    ensures |MethodRows(m)| == |m.checkRole.value.value|
    ensures Split(MethodRows(m)[j], '\t')
         == [m.declaringClass, Signature(m), m.checkRole.value.value[j], BooleanToString(m.checkRole.value.anyOf)]
  {
    var anyOf := BooleanToString(m.checkRole.value.anyOf);
    assert '\t' !in anyOf;
    RoleRowsIndex(m, m.checkRole.value.value, m.checkRole.value.anyOf, j);
    SplitJoin([m.declaringClass, Signature(m), m.checkRole.value.value[j], anyOf], '\t');
  }

  /**
   * The sorted report does not depend on the order the methods are found
   * in: two lists of the same methods give the same rows.
   */
  lemma ReportOrderIndependent(a: seq<MethodDescriptor>, b: seq<MethodDescriptor>)
    requires multiset(a) == multiset(b)
    ensures SortSpec(AllRows(a)) == SortSpec(AllRows(b))
  {
    FlatMapPermutation(a, b, MethodRows);
    SortSpecSortedPermutation(AllRows(a));
    SortSpecSortedPermutation(AllRows(b));
    SortedUnique(SortSpec(AllRows(a)), SortSpec(AllRows(b)));
  }

  /**
   * Hence the logged report does not depend on the order in which the
   * scanning finds the declared methods.
   */
  lemma DeclaredOrderIndependent(a: seq<MethodDescriptor>, b: seq<MethodDescriptor>, classMatches: string -> bool)
    requires multiset(a) == multiset(b)
    ensures SortSpec(AllRows(TargetMethods(a, classMatches))) == SortSpec(AllRows(TargetMethods(b, classMatches)))
  {
    assert multiset(TargetMethods(a, classMatches)) == multiset(TargetMethods(b, classMatches));
    ReportOrderIndependent(TargetMethods(a, classMatches), TargetMethods(b, classMatches));
  }

  /**
   * With a one-character line separator that occurs in no row, the message
   * splits into the title, the header and the rows, one per line.  With no
   * rows it ends in a separator, so its last line is empty.
   */
  lemma MessageLines(c: char, rows: seq<string>)
    requires c !in Title && c !in Header
    requires forall i | 0 <= i < |rows| :: c !in rows[i]
    ensures Split(Message([c], rows), c) == [Title, Header] + (if rows == [] then [""] else rows)
  {
    var lines := if rows == [] then [""] else rows;
    assert Join([c], lines) == Join([c], rows);
    JoinLines(c, Title, Header, lines);
    SplitJoin([Title, Header] + lines, c);
  }

  /** Two lines and a non-empty join of lines, separated by `c`, are the join of all of them. */
  lemma JoinLines(c: char, first: string, second: string, rows: seq<string>)
    requires |rows| > 0
    ensures first + [c] + second + [c] + Join([c], rows) == Join([c], [first, second] + rows)
  {
    var tail := Join([c], rows);
    JoinCons([c], second, rows);
    JoinCons([c], first, [second] + rows);
    assert [first] + ([second] + rows) == [first, second] + rows;
    assert Join([c], [first, second] + rows) == first + [c] + (second + [c] + tail);
    assert first + [c] + (second + [c] + tail) == first + [c] + (second + [c]) + tail;
    assert first + [c] + (second + [c]) == first + [c] + second + [c];
  }

  /**
   * The signature of the multi-argument method of the logger test: the
   * name, then the three type names separated by ", ", in parentheses.
   */
  lemma SignatureExample()
    ensures Signature(MethodDescriptor("nablarch.common.authorization.role.action.FooAction",
                                       "publicMethodWithAnnotationMultipleArg",
                                       ["java.lang.String", "int", "java.util.List"], true, false, None))
         == "publicMethodWithAnnotationMultipleArg" + "(" + "java.lang.String" + ", " + "int" + ", " + "java.util.List" + ")"
  {
    var names := ["java.lang.String", "int", "java.util.List"];
    JoinCons(", ", names[1], names[2..]);
    JoinCons(", ", names[0], names[1..]);
    assert [names[0]] + names[1..] == names && [names[1]] + names[2..] == names[1..];
  }
}
