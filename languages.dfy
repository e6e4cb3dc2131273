/**
 * The language registry of `executeCode` (backend/execute.js:26-55): each
 * supported language key selects the file the source is staged under and
 * the `docker run` command line that builds and runs it.
 */
module Languages {
  import opened Wrappers
  import EntryPoint

  datatype Language = JavaScript | Python | Cpp | Java

  /** The request's language key for each supported language. */
  function Key(lang: Language): string {
    match lang
    case JavaScript => "javascript"
    case Python => "python"
    case Cpp => "cpp"
    case Java => "java"
  }

  /** The `switch (language)`: a key outside the four cases falls to `default`. */
  function ParseLanguage(key: string): (r: Option<Language>)
    ensures r.Some? <==> key in {"javascript", "python", "cpp", "java"}
    ensures r.Some? ==> Key(r.value) == key
  {
    if key == "javascript" then Some(JavaScript)
    else if key == "python" then Some(Python)
    else if key == "cpp" then Some(Cpp)
    else if key == "java" then Some(Java)
    else None
  }

  /** Every supported language is reached by its own key. */
  lemma ParseKey(lang: Language)
    ensures ParseLanguage(Key(lang)) == Some(lang)
  {
  }

  /** The mount point of the job directory inside the container. */
  const Mount: string := "/usr/src/app"

  /** The redirection of the staged `input.txt` into the program. */
  const InputRedirect: string := " < /usr/src/app/input.txt"

  /** The resource caps and the volume flag common to every command, up to the mounted host path. */
  const LimitsAndVolume: string := "docker run --rm --memory=\"256m\" --cpus=\"1.0\" -v \""

  /**
   * A language descriptor: the staged file name, the container image, the
   * optional build step and the run step.
   */
  datatype Descriptor = Descriptor(fileName: string, image: string, build: Option<string>, run: string)

  /** The file name the source is written to inside the job directory. */
  function SourceFileName(lang: Language, code: string): (name: string)
    ensures lang == JavaScript ==> name == "userCode.js"
    ensures lang == Python ==> name == "userCode.py"
    ensures lang == Cpp ==> name == "userCode.cpp"
    ensures lang == Java ==> name == EntryPoint.ClassName(code) + ".java"
  {
    match lang
    case JavaScript => "userCode.js"
    case Python => "userCode.py"
    case Cpp => "userCode.cpp"
    case Java => EntryPoint.ClassName(code) + ".java"
  }

  /** The staged source file as the container sees it. */
  function MountedSource(lang: Language, code: string): string {
    Mount + "/" + SourceFileName(lang, code)
  }

  /** The tool that reads the source file: the interpreter, or the compiler. */
  function Tool(lang: Language): string {
    match lang
    case JavaScript => "node "
    case Python => "python "
    case Cpp => "g++ "
    case Java => "javac "
  }

  /** The step that reads the source: the build step when there is one, else the run step. */
  function Reader(d: Descriptor): string {
    if d.build.Some? then d.build.value else d.run
  }

  /** The per-language `case`: the staged file, the image, and the build and run steps that read that file. */
  function DescriptorOf(lang: Language, code: string): (d: Descriptor)
    ensures d.fileName == SourceFileName(lang, code)
    ensures d.build.Some? <==> (lang == Cpp || lang == Java)
    ensures Tool(lang) + MountedSource(lang, code) <= Reader(d)
  {
    var source := MountedSource(lang, code);
    match lang
    case JavaScript => Descriptor(SourceFileName(lang, code), "node:18", None, "node " + source)
    case Python => Descriptor(SourceFileName(lang, code), "python:3.9", None, "python " + source)
    case Cpp =>
      Descriptor(SourceFileName(lang, code), "gcc:11", Some("g++ " + source + " -o /usr/src/app/a.out"), "/usr/src/app/a.out")
    case Java =>
      var className := EntryPoint.ClassName(code);
      Descriptor(SourceFileName(lang, code), "eclipse-temurin:17", Some("javac " + source), "java -cp /usr/src/app " + className)
  }

  /** The shell script run inside the container: build `&&` run, stdin from `input.txt`. */
  function Script(d: Descriptor): (s: string)
    ensures Reader(d) <= s
  {
    (if d.build.Some? then d.build.value + " && " else "") + d.run + InputRedirect
  }

  /** The script opens by handing the staged source file to the tool that reads it. */
  lemma ScriptReadsStagedSource(lang: Language, code: string)
    ensures Tool(lang) + MountedSource(lang, code) <= Script(DescriptorOf(lang, code))
  {
    var d := DescriptorOf(lang, code);
    assert Reader(d) <= Script(d);
  }

  /** The full `docker run` command line for a descriptor and the host path mounted into the container. */
  function Render(volumePath: string, d: Descriptor): (cmd: string)
    ensures LimitsAndVolume + volumePath + ":" + Mount + "\" " <= cmd
    ensures EndsWith(cmd, InputRedirect + "\"")
  {
    LimitsAndVolume + volumePath + ":/usr/src/app\" " + d.image + " sh -c \"" + Script(d) + "\""
  }

  /** The command `executeCode` hands to `exec` for a supported language. */
  function Command(lang: Language, code: string, volumePath: string): (cmd: string)
    ensures LimitsAndVolume + volumePath + ":" + Mount + "\" " <= cmd
    ensures EndsWith(cmd, InputRedirect + "\"")
  {
    Render(volumePath, DescriptorOf(lang, code))
  }

  predicate EndsWith(s: string, suffix: string) {
    |suffix| <= |s| && s[|s| - |suffix|..] == suffix
  }

  lemma EndsWithConcat(prefix: string, suffix: string)
    ensures EndsWith(prefix + suffix, suffix)
  {
    assert (prefix + suffix)[|prefix|..] == suffix;
  }

  /**
   * For the compiled languages the script ends with the build step, `&&`, the
   * run step and the input redirection: the program runs only if the build succeeded.
   */
  lemma CompiledRunsOnlyAfterBuild(lang: Language, code: string, volumePath: string)
    requires lang == Cpp || lang == Java
    ensures var d := DescriptorOf(lang, code);
      EndsWith(Command(lang, code, volumePath), d.build.value + " && " + d.run + InputRedirect + "\"")
  {
    var d := DescriptorOf(lang, code);
    var tail := d.build.value + " && " + d.run + InputRedirect + "\"";
    var head := LimitsAndVolume + volumePath + ":/usr/src/app\" " + d.image + " sh -c \"";
    assert Command(lang, code, volumePath) == head + tail;
    EndsWithConcat(head, tail);
  }

  /** Java compiles the file it staged, named after the discovered class, and runs that same class. */
  lemma JavaBuildsAndRunsStagedClass(code: string, volumePath: string)
    ensures var className := EntryPoint.ClassName(code);
      && SourceFileName(Java, code) == className + ".java"
      && EndsWith(Command(Java, code, volumePath),
           "javac " + MountedSource(Java, code) + " && " + ("java -cp /usr/src/app " + className) + InputRedirect + "\"")
  {
    CompiledRunsOnlyAfterBuild(Java, code, volumePath);
  }

  /** The discovered class name is made of word characters only, so it cannot break out of the quoted script. */
  lemma ClassNameHasNoShellMetacharacters(code: string)
    ensures forall c :: c in EntryPoint.ClassName(code) ==> c != '"' && c != ' ' && c != ';' && c != '&' && c != '$' && c != '`'
  {
    var name := EntryPoint.ClassName(code);
    forall c | c in name
      ensures c != '"' && c != ' ' && c != ';' && c != '&' && c != '$' && c != '`'
    {
      var i :| 0 <= i < |name| && name[i] == c;
      assert EntryPoint.IsWord(name[i]);
    }
  }

  /** The staged source never overwrites the staged `input.txt`. */
  lemma SourceFileIsNotInputFile(lang: Language, code: string)
    ensures SourceFileName(lang, code) != "input.txt"
  {
    var name := SourceFileName(lang, code);
    if lang == Java {
      assert name[|name| - 1] == 'a';
    }
  }
}
