/** The renderer: an application is a set of packages of components, and the
    Python transpiler hands each component to the handler its discriminator
    names. The only handler, for plain-data `pod` components, writes a
    Python dataclass through an `Aggregator`, a string builder that indents
    every line it writes by the current scope depth. */
module Renderer {

  import opened Values
  import opened AstNodes

  /** `IBinding`. */
  datatype Binding = Binding(name: string, typeName: string, defaultValue: string)

  /** `IComponent`, with the `fieldByNames` map a `Pod` adds (in insertion
      order); absent on any other component. */
  datatype Component = Component(packagePath: seq<string>, name: string, typeName: string, discriminator: string,
                                 kind: string, dependencies: seq<Component>,
                                 fieldByNames: Option<seq<(string, Binding)>>)

  /** `IApplicationDefinition`: package name to component name to component,
      each map in insertion order. */
  datatype ApplicationDefinition = ApplicationDefinition(packages: seq<(string, seq<(string, Component)>)>)

  /** `File`. */
  datatype File = File(path: string, content: string)

  const DefaultIndent := "    "

  /** `createPod(name, kind, fieldByNames)`. */
  function CreatePod(name: string, kind: string, fieldByNames: seq<(string, Binding)>): (pod: Component)
    ensures pod.typeName == "class" && pod.discriminator == "pod"
    ensures pod.dependencies == [] && pod.packagePath == []
    ensures pod.name == name && pod.kind == kind && pod.fieldByNames == Some(fieldByNames)
  {
    Component.Component([], name, "class", "pod", kind, [], Some(fieldByNames))
  }

  /** `dotJoin(elements)`: `elements.join('.')`. */
  function DotJoin(elements: seq<string>): string {
    JoinWith(elements, ".")
  }

  /** `s.repeat(count)`. */
  function Repeat(s: string, count: nat): (r: string)
    ensures |r| == count * |s|
    ensures forall c :: c in r ==> c in s
    decreases count
  {
    if count == 0 then "" else s + Repeat(s, count - 1)
  }

  /** The text of `writeLine` called on each line in turn at the indentation
      `prefix`. */
  function Unlines(prefix: string, lines: seq<string>): string
    decreases |lines|
  {
    if lines == [] then "" else prefix + lines[0] + "\n" + Unlines(prefix, lines[1..])
  }

  lemma {:induction false} UnlinesAppend(prefix: string, a: seq<string>, b: seq<string>)
    ensures Unlines(prefix, a + b) == Unlines(prefix, a) + Unlines(prefix, b)
    decreases |a|
  {
    if a != [] {
      assert (a + b)[0] == a[0] && (a + b)[1..] == a[1..] + b;
      UnlinesAppend(prefix, a[1..], b);
    } else {
      assert a + b == b;
    }
  }

  /** `String.prototype.split` with a one-character separator. */
  function Split(s: string, sep: char): (parts: seq<string>)
    ensures |parts| >= 1
    decreases |s|
  {
    if s == [] then [""]
    else
      var rest := Split(s[1..], sep);
      if s[0] == sep then [""] + rest else [[s[0]] + rest[0]] + rest[1..]
  }

  lemma {:induction false} SplitAtFirst(a: string, sep: char, b: string)
    requires sep !in a
    ensures Split(a + [sep] + b, sep) == [a] + Split(b, sep)
    decreases |a|
  {
    var s := a + [sep] + b;
    if a == [] {
      assert s[0] == sep && s[1..] == b;
    } else {
      assert s[0] == a[0] && s[1..] == a[1..] + [sep] + b;
      SplitAtFirst(a[1..], sep, b);
      assert [a[0]] + a[1..] == a;
    }
  }

  /** Lines written with no newline inside them read back as exactly those
      lines, followed by the empty remainder after the last newline. */
  lemma {:induction false} SplitUnlines(lines: seq<string>)
    requires forall i :: 0 <= i < |lines| ==> '\n' !in lines[i]
    ensures Split(Unlines("", lines), '\n') == lines + [""]
    decreases |lines|
  {
    if lines != [] {
      assert Unlines("", lines) == lines[0] + ['\n'] + Unlines("", lines[1..]);
      SplitAtFirst(lines[0], '\n', Unlines("", lines[1..]));
      SplitUnlines(lines[1..]);
      assert [lines[0]] + lines[1..] == lines;
    }
  }

  /** A string without the separator splits into itself. */
  lemma {:induction false} SplitNone(a: string, sep: char)
    requires sep !in a
    ensures Split(a, sep) == [a]
    decreases |a|
  {
    if a != [] {
      SplitNone(a[1..], sep);
      assert [a[0]] + a[1..] == a;
    }
  }

  /** `dotJoin` of a non-empty package path whose segments hold no dot
      splits back at the dots into the same segments. */
  lemma {:induction false} DotJoinSplit(elements: seq<string>)
    requires elements != []
    requires forall i :: 0 <= i < |elements| ==> '.' !in elements[i]
    ensures Split(DotJoin(elements), '.') == elements
    decreases |elements|
  {
    if |elements| == 1 {
      SplitNone(elements[0], '.');
    } else {
      assert DotJoin(elements) == elements[0] + ['.'] + DotJoin(elements[1..]);
      SplitAtFirst(elements[0], '.', DotJoin(elements[1..]));
      DotJoinSplit(elements[1..]);
      assert [elements[0]] + elements[1..] == elements;
    }
  }

  /** The string builder behind every emitted file. */
  class Aggregator {
    var result: string
    var indent: string
    var depth: nat

    /** The indentation written before each chunk and line. */
    function Prefix(): string
      reads this
    {
      Repeat(indent, depth)
    }

    constructor ()
      ensures result == "" && indent == DefaultIndent && depth == 0
    {
      result := "";
      indent := DefaultIndent;
      depth := 0;
    }

    /** `write(chunk)`: the chunk at the current indentation. */
    method Write(chunk: string)
      modifies this
      ensures result == old(result) + old(Prefix()) + chunk
      ensures indent == old(indent) && depth == old(depth)
    {
      result := result + Repeat(indent, depth) + chunk;
    }

    /** `writeLine(line)`: the line at the current indentation, then a newline. */
    method WriteLine(line: string)
      modifies this
      ensures result == old(result) + Unlines(old(Prefix()), [line])
      ensures indent == old(indent) && depth == old(depth)
    {
      result := result + Repeat(indent, depth) + line + "\n";
    }

    /** `endl(count = 1)`: exactly `count` newlines, with no indentation. */
    method Endl(count: nat := 1)
      modifies this
      ensures result == old(result) + Repeat("\n", count)
      ensures |result| == |old(result)| + count
      ensures forall i :: |old(result)| <= i < |result| ==> result[i] == '\n'
      ensures indent == old(indent) && depth == old(depth)
    {
      var newlines := Repeat("\n", count);
      result := result + newlines;
      assert forall j :: 0 <= j < |newlines| ==> newlines[j] in newlines;
      assert forall i :: |old(result)| <= i < |result| ==> result[i] == newlines[i - |old(result)|];
    }

    /** `scope(buildInner)` with an inner builder that writes `lines`: one
        level deeper while it runs, the depth restored afterwards. */
    method Scope(lines: seq<string>)
      modifies this
      ensures result == old(result) + Unlines(Repeat(old(indent), old(depth) + 1), lines)
      ensures indent == old(indent) && depth == old(depth)
    {
      depth := depth + 1;
      var i := 0;
      while i < |lines|
        invariant 0 <= i <= |lines|
        invariant indent == old(indent) && depth == old(depth) + 1
        invariant result == old(result) + Unlines(Prefix(), lines[..i])
      {
        UnlinesAppend(Prefix(), lines[..i], [lines[i]]);
        assert lines[..i + 1] == lines[..i] + [lines[i]];
        WriteLine(lines[i]);
        i := i + 1;
      }
      assert lines[..i] == lines;
      depth := depth - 1;
    }
  }

  /** One `from <package.path> import <Name>` line per dependency. */
  function ImportLines(dependencies: seq<Component>): (lines: seq<string>) {
    seq(|dependencies|, i requires 0 <= i < |dependencies| =>
      "from " + DotJoin(dependencies[i].packagePath) + " import " + dependencies[i].name)
  }

  /** One `<field>: <binding name>` line per entry of `fieldByNames`. */
  function FieldLines(fieldByNames: seq<(string, Binding)>): (lines: seq<string>) {
    seq(|fieldByNames|, i requires 0 <= i < |fieldByNames| => fieldByNames[i].0 + ": " + fieldByNames[i].1.name)
  }

  /** The lines of a pod's module, the field lines one indentation deep. */
  function PyPodLines(pod: Component, fieldByNames: seq<(string, Binding)>): seq<string> {
    ["from dataclasses import dataclass"] + ImportLines(pod.dependencies) + ["", "", "@dataclass", "class " + pod.name]
      + seq(|fieldByNames|, i requires 0 <= i < |fieldByNames| => DefaultIndent + FieldLines(fieldByNames)[i])
  }

  /** What `buildPyPod` returns, or the error reading the fields of a
      component that has none. */
  function PyPod(pod: Component): Try<File> {
    match pod.fieldByNames
    case None => Failure(JsTypeError("Cannot read properties of undefined (reading 'entries')"))
    case Some(fields) => Success(File(pod.name, Unlines("", PyPodLines(pod, fields))))
  }

  /** `buildPyPod(component)`. */
  method BuildPyPod(pod: Component) returns (r: Try<File>)
    ensures r == PyPod(pod)
  {
    var fileContent := new Aggregator();
    assert fileContent.Prefix() == "";
    fileContent.WriteLine("from dataclasses import dataclass");
    WriteImports(fileContent, pod.dependencies);
    WriteClassLine(fileContent, pod.name);
    if pod.fieldByNames.None? {
      return Failure(JsTypeError("Cannot read properties of undefined (reading 'entries')"));
    }
    var fields := pod.fieldByNames.value;
    fileContent.Scope(FieldLines(fields));
    PyPodText(pod, fields);
    r := Success(File(pod.name, fileContent.result));
  }

  /** The text of a pod's lines is what `buildPyPod` writes piece by piece. */
  lemma PyPodText(pod: Component, fields: seq<(string, Binding)>)
    ensures Unlines("", PyPodLines(pod, fields))
      == "" + Unlines("", ["from dataclasses import dataclass"]) + Unlines("", ImportLines(pod.dependencies))
         + Unlines("", ["", "", "@dataclass", "class " + pod.name]) + Unlines(Repeat(DefaultIndent, 1), FieldLines(fields))
  {
    var header := ["from dataclasses import dataclass"];
    var imports := ImportLines(pod.dependencies);
    var middle := ["", "", "@dataclass", "class " + pod.name];
    var indented := seq(|fields|, i requires 0 <= i < |fields| => DefaultIndent + FieldLines(fields)[i]);
    assert PyPodLines(pod, fields) == header + imports + middle + indented;
    UnlinesAppend("", header + imports + middle, indented);
    UnlinesAppend("", header + imports, middle);
    UnlinesAppend("", header, imports);
    IndentedUnlines(FieldLines(fields));
  }

  /** The loop of `buildPyPod` over the dependencies, at depth zero. */
  method WriteImports(fileContent: Aggregator, dependencies: seq<Component>)
    requires fileContent.depth == 0
    modifies fileContent
    ensures fileContent.result == old(fileContent.result) + Unlines("", ImportLines(dependencies))
    ensures fileContent.indent == old(fileContent.indent) && fileContent.depth == 0
  {
    var imports := ImportLines(dependencies);
    var i := 0;
    while i < |dependencies|
      invariant 0 <= i <= |dependencies|
      invariant fileContent.indent == old(fileContent.indent) && fileContent.depth == 0
      invariant fileContent.result == old(fileContent.result) + Unlines("", imports[..i])
    {
      var dependency := dependencies[i];
      assert fileContent.Prefix() == "";
      assert imports[..i + 1] == imports[..i] + [imports[i]];
      UnlinesAppend("", imports[..i], [imports[i]]);
      fileContent.WriteLine("from " + DotJoin(dependency.packagePath) + " import " + dependency.name);
      i := i + 1;
    }
    assert imports[..i] == imports;
  }

  /** The two blank lines, the decorator and the class line of `buildPyPod`. */
  method WriteClassLine(fileContent: Aggregator, name: string)
    requires fileContent.depth == 0
    modifies fileContent
    ensures fileContent.result == old(fileContent.result) + Unlines("", ["", "", "@dataclass", "class " + name])
    ensures fileContent.indent == old(fileContent.indent) && fileContent.depth == 0
  {
    ghost var before := fileContent.result;
    assert fileContent.Prefix() == "";
    fileContent.Endl(2);
    assert fileContent.Prefix() == "";
    fileContent.WriteLine("@dataclass");
    assert fileContent.Prefix() == "";
    fileContent.WriteLine("class " + name);
    ClassLineText(before, name);
  }

  lemma ClassLineText(before: string, name: string)
    ensures before + Repeat("\n", 2) + Unlines("", ["@dataclass"]) + Unlines("", ["class " + name])
      == before + Unlines("", ["", "", "@dataclass", "class " + name])
  {
    assert Repeat("\n", 2) == "\n\n" == Unlines("", ["", ""]);
    UnlinesAppend("", ["", ""], ["@dataclass"]);
    assert ["", ""] + ["@dataclass"] == ["", "", "@dataclass"];
    UnlinesAppend("", ["", "", "@dataclass"], ["class " + name]);
    assert ["", "", "@dataclass"] + ["class " + name] == ["", "", "@dataclass", "class " + name];
  }

  /** Writing lines one level deep is writing the indented lines at depth zero. */
  lemma {:induction false} IndentedUnlines(lines: seq<string>)
    ensures Unlines(Repeat(DefaultIndent, 1), lines)
      == Unlines("", seq(|lines|, i requires 0 <= i < |lines| => DefaultIndent + lines[i]))
    decreases |lines|
  {
    assert Repeat(DefaultIndent, 1) == DefaultIndent;
    if lines != [] {
      IndentedUnlines(lines[1..]);
      var indented := seq(|lines|, i requires 0 <= i < |lines| => DefaultIndent + lines[i]);
      assert indented[1..] == seq(|lines[1..]|, i requires 0 <= i < |lines[1..]| => DefaultIndent + lines[1..][i]);
    }
  }

  /** A pod's file is named after the pod, and its content reads back as the
      import line, one import per dependency, two blank lines, the decorator,
      the class line and one indented line per field, in that order. */
  lemma PyPodLayout(pod: Component, fields: seq<(string, Binding)>)
    requires pod.fieldByNames == Some(fields)
    requires forall i :: 0 <= i < |PyPodLines(pod, fields)| ==> '\n' !in PyPodLines(pod, fields)[i]
    ensures PyPod(pod).Success? && PyPod(pod).value.path == pod.name
    ensures Split(PyPod(pod).value.content, '\n') == PyPodLines(pod, fields) + [""]
    ensures |PyPodLines(pod, fields)| == 5 + |pod.dependencies| + |fields|
  {
    SplitUnlines(PyPodLines(pod, fields));
  }

  /** `Map.prototype.values()` of a map in insertion order. */
  function Components<K>(entries: seq<(K, Component)>): (cs: seq<Component>)
    ensures |cs| == |entries|
    ensures forall i :: 0 <= i < |entries| ==> cs[i] == entries[i].1
  {
    seq(|entries|, i requires 0 <= i < |entries| => entries[i].1)
  }

  /** The components `getAppComponets` yields: package by package, each
      package's components in order. */
  function AppComponents(packages: seq<(string, seq<(string, Component)>)>): seq<Component>
    decreases |packages|
  {
    if packages == [] then [] else Components(packages[0].1) + AppComponents(packages[1..])
  }

  /** The number of components of all packages. */
  function ComponentCount(packages: seq<(string, seq<(string, Component)>)>): nat
    decreases |packages|
  {
    if packages == [] then 0 else |packages[0].1| + ComponentCount(packages[1..])
  }

  /** Every component of every package is yielded, once per entry. */
  lemma {:induction false} AppComponentsComplete(packages: seq<(string, seq<(string, Component)>)>)
    ensures |AppComponents(packages)| == ComponentCount(packages)
    ensures forall p, k :: 0 <= p < |packages| && 0 <= k < |packages[p].1| ==> packages[p].1[k].1 in AppComponents(packages)
    decreases |packages|
  {
    if packages != [] {
      AppComponentsComplete(packages[1..]);
      forall p, k | 0 <= p < |packages| && 0 <= k < |packages[p].1|
        ensures packages[p].1[k].1 in AppComponents(packages)
      {
        if p == 0 {
          assert Components(packages[0].1)[k] == packages[p].1[k].1;
        } else {
          assert packages[p] == packages[1..][p - 1];
        }
      }
    }
  }

  /** `mapping.get(discriminator)` applied to the component: only `pod` has
      a handler. */
  function Handle(c: Component): Try<File> {
    if c.discriminator != "pod" then Failure(JsError("No such handler")) else PyPod(c)
  }

  /** What `transpile` does with the components, in order: the first that
      throws ends it; handled files are dropped and the list returned is
      the empty one it started with. */
  function TranspileAll(cs: seq<Component>): Try<seq<File>>
    decreases |cs|
  {
    if cs == [] then Success([])
    else
      match Handle(cs[0])
      case Failure(e) => Failure(e)
      case Success(_) => TranspileAll(cs[1..])
  }

  /** `transpile` succeeds exactly when every component is a pod with fields,
      and then it returns no file. Otherwise it throws "No such handler" or
      the error of the first pod without fields. */
  lemma {:induction false} TranspileOutcome(cs: seq<Component>)
    ensures TranspileAll(cs).Success?
      <==> forall i :: 0 <= i < |cs| ==> cs[i].discriminator == "pod" && cs[i].fieldByNames.Some?
    ensures TranspileAll(cs).Success? ==> TranspileAll(cs).value == []
    ensures (TranspileAll(cs).Failure? ==>
      TranspileAll(cs).exception in {JsError("No such handler"), JsTypeError("Cannot read properties of undefined (reading 'entries')")})
    decreases |cs|
  {
    if cs != [] {
      TranspileOutcome(cs[1..]);
      if Handle(cs[0]).Success? {
        assert forall i :: 1 <= i < |cs| ==> cs[i] == cs[1..][i - 1];
      }
    }
  }

  /** An application holding a component that is not a pod makes `transpile`
      throw "No such handler" when every component before it is a pod. */
  lemma {:induction false} TranspileRejects(cs: seq<Component>, k: nat)
    requires k < |cs| && cs[k].discriminator != "pod"
    requires forall i :: 0 <= i < k ==> cs[i].discriminator == "pod" && cs[i].fieldByNames.Some?
    ensures TranspileAll(cs) == Failure(JsError("No such handler"))
    decreases k
  {
    if k > 0 {
      TranspileRejects(cs[1..], k - 1);
    }
  }

  /** Pods built by `createPod` all transpile, to no file. */
  lemma CreatedPodsTranspile(specs: seq<(string, string, seq<(string, Binding)>)>)
    ensures TranspileAll(seq(|specs|, i requires 0 <= i < |specs| => CreatePod(specs[i].0, specs[i].1, specs[i].2))) == Success([])
  {
    var cs := seq(|specs|, i requires 0 <= i < |specs| => CreatePod(specs[i].0, specs[i].1, specs[i].2));
    TranspileOutcome(cs);
  }

  /** One step of `Components` over a suffix. */
  lemma ComponentsStep<K>(entries: seq<(K, Component)>, k: nat)
    requires k < |entries|
    ensures Components(entries[k..]) == [entries[k].1] + Components(entries[k + 1..])
  {
    assert Components(entries[k..]) == [entries[k].1] + Components(entries[k + 1..]) by {
      var a, b := Components(entries[k..]), [entries[k].1] + Components(entries[k + 1..]);
      assert |a| == |b|;
      forall i | 0 <= i < |a| ensures a[i] == b[i] {
        if i > 0 {
          assert b[i] == Components(entries[k + 1..])[i - 1];
        }
      }
    }
  }

  /** One step of `AppComponents` over a suffix. */
  lemma AppComponentsStep(packages: seq<(string, seq<(string, Component)>)>, p: nat)
    requires p < |packages|
    ensures AppComponents(packages[p..]) == Components(packages[p].1) + AppComponents(packages[p + 1..])
  {
    assert packages[p..][0] == packages[p] && packages[p..][1..] == packages[p + 1..];
  }

  /** One step of `TranspileAll` on a list whose head is handled. */
  lemma TranspileStep(c: Component, rest: seq<Component>)
    ensures Handle(c).Failure? ==> TranspileAll([c] + rest) == Failure(Handle(c).exception)
    ensures Handle(c).Success? ==> TranspileAll([c] + rest) == TranspileAll(rest)
  {
    assert ([c] + rest)[0] == c && ([c] + rest)[1..] == rest;
  }

  /** `PythonTranspiler.transpile(app)`: the components as
      `getAppComponets` yields them, each handed to its handler. */
  method Transpile(app: ApplicationDefinition) returns (r: Try<seq<File>>)
    ensures r == TranspileAll(AppComponents(app.packages))
  {
    var files: seq<File> := [];
    var packages := app.packages;
    var p := 0;
    while p < |packages|
      invariant 0 <= p <= |packages|
      invariant TranspileAll(AppComponents(packages[p..])) == TranspileAll(AppComponents(packages))
    {
      var packageComponentByName := packages[p].1;
      ghost var later := AppComponents(packages[p + 1..]);
      AppComponentsStep(packages, p);
      assert packageComponentByName[0..] == packageComponentByName;
      var k := 0;
      while k < |packageComponentByName|
        invariant 0 <= k <= |packageComponentByName|
        invariant TranspileAll(Components(packageComponentByName[k..]) + later) == TranspileAll(AppComponents(packages))
      {
        var component := packageComponentByName[k].1;
        ghost var next := Components(packageComponentByName[k + 1..]);
        ComponentsStep(packageComponentByName, k);
        AppendAssoc([component], next, later);
        TranspileStep(component, next + later);
        if component.discriminator != "pod" {
          return Failure(JsError("No such handler"));
        }
        var file := BuildPyPod(component);
        if file.Failure? {
          return Failure(file.exception);
        }
        k := k + 1;
      }
      assert Components(packageComponentByName[k..]) == [];
      assert [] + later == later;
      p := p + 1;
    }
    assert packages[p..] == [];
    r := Success(files);
  }
}
