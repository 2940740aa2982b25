/**
 * The active-plugins file of `blockchain/bl_plugins.go`: one name per line, rewritten whole on every install and
 * uninstall. The file is shown to refine a sequence of distinct names.
 */
module PluginRegistry {
  import opened Wrappers
  import opened Text

  // ---------------------------------------------------------------------------------------------------------------
  // strings.Split and strings.Join at newlines

  function Split(s: string): (parts: seq<string>)
    ensures |parts| >= 1
  {
    if s == [] then [""]
    else if s[0] == '\n' then [""] + Split(s[1..])
    else
      var rest := Split(s[1..]);
      [[s[0]] + rest[0]] + rest[1..]
  }

  function Join(parts: seq<string>): string {
    if parts == [] then ""
    else if |parts| == 1 then parts[0]
    else parts[0] + "\n" + Join(parts[1..])
  }

  predicate OneLine(s: string) { '\n' !in s }

  predicate AllOneLine(parts: seq<string>) {
    forall i :: 0 <= i < |parts| ==> OneLine(parts[i])
  }

  lemma {:induction false} SplitLine(s: string)
    requires OneLine(s)
    ensures Split(s) == [s]
  {
    if s != [] {
      assert s == [s[0]] + s[1..];
      SplitLine(s[1..]);
    }
  }

  lemma {:induction false} SplitAtNewline(s: string, t: string)
    requires OneLine(s)
    ensures Split(s + "\n" + t) == [s] + Split(t)
  {
    var u := s + "\n" + t;
    if s == [] {
      assert u[1..] == t;
    } else {
      SplitAtNewline(s[1..], t);
      assert u[1..] == s[1..] + "\n" + t;
      assert [s[0]] + s[1..] == s;
    }
  }

  /** Splitting undoes joining. */
  lemma {:induction false} SplitOfJoin(parts: seq<string>)
    requires parts != [] && AllOneLine(parts)
    ensures Split(Join(parts)) == parts
  {
    if |parts| == 1 {
      SplitLine(parts[0]);
    } else {
      SplitOfJoin(parts[1..]);
      SplitAtNewline(parts[0], Join(parts[1..]));
    }
  }

  lemma {:induction false} JoinSnoc(parts: seq<string>, last: string)
    requires parts != []
    ensures Join(parts + [last]) == Join(parts) + "\n" + last
  {
    if |parts| > 1 {
      JoinSnoc(parts[1..], last);
      assert (parts + [last])[1..] == parts[1..] + [last];
    } else {
      assert (parts + [last])[1..] == [last];
    }
  }

  // ---------------------------------------------------------------------------------------------------------------
  // The file

  /** readActivePlugins: a missing file is an empty list; an empty file is a list of one empty string. */
  function Read(file: Option<string>): seq<string> {
    if file.None? then [] else Split(TrimSpace(file.value))
  }

  /** The file after an install that succeeds. */
  function Installed(file: Option<string>, name: string): Option<string> {
    if name in Read(file) then file else Some(Join(Read(file) + [name]))
  }

  function Without(parts: seq<string>, name: string): seq<string> {
    if parts == [] then []
    else
      var n := |parts| - 1;
      Without(parts[..n], name) + (if parts[n] == name then [] else [parts[n]])
  }

  /** The file after an uninstall that succeeds, or after one that does not find the plugin. */
  function Uninstalled(file: Option<string>, name: string): Option<string> {
    if name in Read(file) then Some(Join(Without(Read(file), name))) else file
  }

  /** listActivePluginsImpl */
  function Active(file: Option<string>): seq<string> { Without(Read(file), "") }

  datatype Reply = ReadFailed | AlreadyInstalled | BadParameters | Done | NotFound | WriteFailed

  /**
   * What becomes of a write of the whole file: it goes through, it fails before the file is touched, or it fails after
   * the file was truncated and the first n characters were written.
   */
  datatype Write = Whole | Untouched | Cut(n: nat)

  function Written(before: Option<string>, text: string, write: Write): Option<string> {
    match write
    case Whole => Some(text)
    case Untouched => before
    case Cut(n) => Some(if n <= |text| then text[..n] else text)
  }

  class Registry {
    var file: Option<string>

    constructor ()
      ensures file == None
    {
      file := None;
    }

    method WriteActive(plugins: seq<string>, write: Write) returns (ok: bool)
      modifies this
      ensures ok <==> write.Whole?
      ensures file == Written(old(file), Join(plugins), write)
    {
      var text := Join(plugins);
      ok := write.Whole?;
      match write
      case Whole => file := Some(text);
      case Untouched =>
      case Cut(n) => file := Some(if n <= |text| then text[..n] else text);
    }

    /**
     * `readable` says whether the file can be read, if there is one, and `parameters` whether the parameters are well
     * formed and can be stored.
     */
    method Install(name: string, readable: bool, parameters: bool, write: Write) returns (r: Reply)
      modifies this
      ensures r == ReadFailed <==> !readable
      ensures r == AlreadyInstalled <==> readable && name in Read(old(file))
      ensures r == BadParameters <==> readable && name !in Read(old(file)) && !parameters
      ensures r == Done <==> readable && name !in Read(old(file)) && parameters && write.Whole?
      ensures r == WriteFailed <==> readable && name !in Read(old(file)) && parameters && !write.Whole?
      ensures r == ReadFailed || r == BadParameters ==> file == old(file)
      ensures r == AlreadyInstalled || r == Done ==> file == Installed(old(file), name)
      ensures r == WriteFailed ==> file == Written(old(file), Join(Read(old(file)) + [name]), write)
    {
      if !readable {
        return ReadFailed;
      }
      var plugins := Read(file);
      for i := 0 to |plugins|
        invariant name !in plugins[..i]
      {
        if plugins[i] == name {
          return AlreadyInstalled;
        }
      }
      assert plugins[..|plugins|] == plugins;
      if !parameters {
        return BadParameters;
      }
      var ok := WriteActive(plugins + [name], write);
      r := if ok then Done else WriteFailed;
    }

    method Uninstall(name: string, readable: bool, write: Write) returns (r: Reply)
      modifies this
      ensures r == ReadFailed <==> !readable
      ensures r == NotFound <==> readable && name !in Read(old(file))
      ensures r == Done <==> readable && name in Read(old(file)) && write.Whole?
      ensures r == WriteFailed <==> readable && name in Read(old(file)) && !write.Whole?
      ensures r == ReadFailed ==> file == old(file)
      ensures r == NotFound || r == Done ==> file == Uninstalled(old(file), name)
      ensures r == WriteFailed ==> file == Written(old(file), Join(Without(Read(old(file)), name)), write)
    {
      if !readable {
        return ReadFailed;
      }
      var plugins := Read(file);
      var newPlugins: seq<string>, found := [], false;
      for i := 0 to |plugins|
        invariant newPlugins == Without(plugins[..i], name)
        invariant found <==> name in plugins[..i]
      {
        assert plugins[..i + 1] == plugins[..i] + [plugins[i]];
        if plugins[i] != name {
          newPlugins := newPlugins + [plugins[i]];
        } else {
          found := true;
        }
      }
      assert plugins[..|plugins|] == plugins;
      if !found {
        return NotFound;
      }
      var ok := WriteActive(newPlugins, write);
      r := if ok then Done else WriteFailed;
    }

    method ListActive() returns (names: seq<string>)
      ensures names == Active(file)
    {
      var plugins := Read(file);
      names := [];
      for i := 0 to |plugins|
        invariant names == Without(plugins[..i], "")
      {
        assert plugins[..i + 1][..i] == plugins[..i];
        if plugins[i] != "" {
          names := names + [plugins[i]];
        }
      }
      assert plugins[..|plugins|] == plugins;
    }
  }

  // ---------------------------------------------------------------------------------------------------------------
  // The sequence of names the file stands for

  predicate GoodName(s: string) {
    s != "" && OneLine(s) && !IsSpace(s[0]) && !IsSpace(s[|s| - 1])
  }

  predicate GoodNames(names: seq<string>) {
    && (forall i :: 0 <= i < |names| ==> GoodName(names[i]))
    && (forall i, j :: 0 <= i < j < |names| ==> names[i] != names[j])
  }

  predicate Represents(file: Option<string>, names: seq<string>) {
    && GoodNames(names)
    && if file.None? then names == [] else TrimSpace(file.value) == Join(names)
  }

  lemma {:induction false} JoinEnds(names: seq<string>)
    requires names != [] && forall i :: 0 <= i < |names| ==> GoodName(names[i])
    ensures Join(names) != "" && !IsSpace(Join(names)[0]) && !IsSpace(Join(names)[|Join(names)| - 1])
  {
    if |names| > 1 {
      JoinEnds(names[1..]);
    }
  }

  /** A registered list reads back as itself; the empty one as no name at all or as one empty string. */
  lemma ReadBack(file: Option<string>, names: seq<string>)
    requires Represents(file, names)
    ensures names != [] ==> Read(file) == names
    ensures names == [] ==> Read(file) == (if file.None? then [] else [""])
  {
    if names != [] {
      SplitOfJoin(names);
    }
  }

  lemma {:induction false} WithoutAbsent(parts: seq<string>, name: string)
    requires name !in parts
    ensures Without(parts, name) == parts
  {
    if parts != [] {
      WithoutAbsent(parts[..|parts| - 1], name);
    }
  }

  /** Listing shows exactly the registered names. */
  lemma ActiveIsNames(file: Option<string>, names: seq<string>)
    requires Represents(file, names)
    ensures Active(file) == names
  {
    ReadBack(file, names);
    if names != [] {
      WithoutAbsent(names, "");
    } else if file.Some? {
      assert [""][..0] == [];
    }
  }

  lemma TrimLeadingNewline(s: string)
    ensures TrimSpace("\n" + s) == TrimSpace(s)
  {
    assert ("\n" + s)[1..] == s;
  }

  /** Install appends a name that is not registered and leaves the others alone. */
  lemma InstallRefines(file: Option<string>, names: seq<string>, name: string)
    requires Represents(file, names) && GoodName(name)
    ensures Represents(Installed(file, name), if name in names then names else names + [name])
  {
    ReadBack(file, names);
    if name !in names {
      var names' := names + [name];
      assert GoodNames(names');
      JoinEnds(names');
      if names == [] && file.Some? {
        assert Join([""] + [name]) == "\n" + name;
        TrimLeadingNewline(name);
        TrimKeeps(name);
      } else {
        TrimKeeps(Join(names'));
      }
    }
  }

  lemma {:induction false} WithoutIsGood(names: seq<string>, name: string)
    requires GoodNames(names)
    ensures GoodNames(Without(names, name))
    ensures forall x :: x in Without(names, name) <==> x in names && x != name
  {
    if names != [] {
      var n := |names| - 1;
      WithoutIsGood(names[..n], name);
      assert names == names[..n] + [names[n]];
      var front := Without(names[..n], name);
      assert names[n] !in names[..n];
      assert names[n] !in front;
    }
  }

  /** Uninstall removes exactly the given name; removing the last one leaves an empty file. */
  lemma UninstallRefines(file: Option<string>, names: seq<string>, name: string)
    requires Represents(file, names) && GoodName(name)
    ensures Represents(Uninstalled(file, name), Without(names, name))
  {
    ReadBack(file, names);
    WithoutIsGood(names, name);
    if name in names {
      var rest := Without(names, name);
      if rest != [] {
        JoinEnds(rest);
      }
      TrimKeeps(Join(rest));
    } else {
      WithoutAbsent(names, name);
    }
  }

  // ---------------------------------------------------------------------------------------------------------------
  // Runs

  datatype Request = InstallPlugin(name: string) | UninstallPlugin(name: string)

  function FileAfter(rs: seq<Request>): Option<string> {
    if rs == [] then None
    else
      var file, r := FileAfter(rs[..|rs| - 1]), rs[|rs| - 1];
      if r.InstallPlugin? then Installed(file, r.name) else Uninstalled(file, r.name)
  }

  function NamesAfter(rs: seq<Request>): seq<string> {
    if rs == [] then []
    else
      var names, r := NamesAfter(rs[..|rs| - 1]), rs[|rs| - 1];
      if r.UninstallPlugin? then Without(names, r.name)
      else if r.name in names then names else names + [r.name]
  }

  /** Over every run of installs and uninstalls of good names the file stands for the list of distinct names. */
  lemma {:induction false} FileRefinesNames(rs: seq<Request>)
    requires forall i :: 0 <= i < |rs| ==> GoodName(rs[i].name)
    ensures Represents(FileAfter(rs), NamesAfter(rs))
    ensures Active(FileAfter(rs)) == NamesAfter(rs)
  {
    if rs != [] {
      var front, r := rs[..|rs| - 1], rs[|rs| - 1];
      FileRefinesNames(front);
      if r.InstallPlugin? {
        InstallRefines(FileAfter(front), NamesAfter(front), r.name);
      } else {
        UninstallRefines(FileAfter(front), NamesAfter(front), r.name);
      }
    }
    ActiveIsNames(FileAfter(rs), NamesAfter(rs));
  }

  // ---------------------------------------------------------------------------------------------------------------
  // Names the code accepts but cannot keep

  lemma {:induction false} TrimRightOfSum(a: string, b: string)
    ensures TrimRight(a + b) == if TrimRight(b) == [] then TrimRight(a) else a + TrimRight(b)
  {
    if b == [] {
      assert a + b == a;
    } else if IsSpace(b[|b| - 1]) {
      TrimRightOfSum(a, b[..|b| - 1]);
      assert (a + b)[..|a + b| - 1] == a + b[..|b| - 1];
    }
  }

  lemma {:induction false} TrimRightPrefix(s: string)
    ensures TrimRight(s) <= s
    ensures TrimRight(s) == s <==> s == [] || !IsSpace(s[|s| - 1])
  {
    if s != [] && IsSpace(s[|s| - 1]) {
      TrimRightPrefix(s[..|s| - 1]);
      assert |TrimRight(s)| < |s|;
    }
  }

  lemma {:induction false} SplitIsOneLine(s: string)
    ensures AllOneLine(Split(s))
  {
    if s != [] { SplitIsOneLine(s[1..]); }
  }

  /**
   * Nothing checks the name given to install. It is registered exactly when it is a non-empty single line that does
   * not end in white space and, as the only plugin, does not start with it either; any other name is reported as
   * installed and then cannot be found.
   */
  lemma InstallKeepsExactly(file: Option<string>, names: seq<string>, name: string)
    requires Represents(file, names) && name !in names
    ensures name in Active(Installed(file, name)) <==>
              name != "" && OneLine(name) && !IsSpace(name[|name| - 1]) && (names == [] ==> !IsSpace(name[0]))
  {
    ReadBack(file, names);
    InMember(Read(Installed(file, name)), name);
    if name != "" {
      if OneLine(name) {
        TrimRightPrefix(name);
        if names == [] {
          AloneIsTrimmed(file, name);
        } else {
          JoinSnoc(names, name);
          TrimmedLine(names, name);
        }
      } else {
        SplitIsOneLine(TrimSpace(Installed(file, name).value));
      }
    }
  }

  lemma {:induction false} TrimLeftSuffix(s: string)
    ensures |TrimLeft(s)| <= |s| && TrimLeft(s) == s[|s| - |TrimLeft(s)|..]
    ensures TrimLeft(s) == s <==> s == [] || !IsSpace(s[0])
  {
    if s != [] && IsSpace(s[0]) {
      TrimLeftSuffix(s[1..]);
    }
  }

  lemma TrimExactly(s: string)
    requires s != ""
    ensures TrimSpace(s) == s <==> !IsSpace(s[0]) && !IsSpace(s[|s| - 1])
  {
    TrimLeftSuffix(s);
    TrimRightPrefix(TrimLeft(s));
  }

  lemma TrimmedIsOneLine(s: string)
    requires OneLine(s)
    ensures OneLine(TrimRight(s)) && OneLine(TrimSpace(s))
  {
    TrimRightPrefix(s);
    TrimLeftSuffix(s);
    TrimRightPrefix(TrimLeft(s));
  }

  /** What is read back after a one-line name was installed with no other. */
  lemma AloneIsTrimmed(file: Option<string>, name: string)
    requires Represents(file, []) && name != "" && OneLine(name)
    ensures Read(Installed(file, name)) == [TrimSpace(name)]
    ensures TrimSpace(name) == name <==> !IsSpace(name[0]) && !IsSpace(name[|name| - 1])
  {
    TrimExactly(name);
    TrimmedIsOneLine(name);
    SplitLine(TrimSpace(name));
    ReadBack(file, []);
    if file.Some? {
      assert Join([""] + [name]) == "\n" + name;
      TrimLeadingNewline(name);
    }
  }

  lemma {:induction false} InMember(parts: seq<string>, name: string)
    ensures name in Without(parts, "") <==> name in parts && name != ""
  {
    if parts != [] {
      var n := |parts| - 1;
      InMember(parts[..n], name);
      assert parts == parts[..n] + [parts[n]];
    }
  }

  /** What is read back after a one-line name was appended to good names. */
  lemma TrimmedLine(names: seq<string>, name: string)
    requires names != [] && GoodNames(names) && OneLine(name)
    ensures var kept := TrimRight(name);
            Split(TrimSpace(Join(names) + "\n" + name)) == if kept == [] then names else names + [kept]
  {
    var a, kept := Join(names), TrimRight(name);
    JoinEnds(names);
    var text := a + "\n" + name;
    assert TrimLeft(text) == text;
    TrimRightPrefix(name);
    TrimRightOfSum(a + "\n", name);
    assert a + "\n" + name == (a + "\n") + name;
    if kept == [] {
      assert (a + "\n")[..|a|] == a;
      TrimKeeps(a);
      SplitOfJoin(names);
    } else {
      JoinSnoc(names, kept);
      SplitOfJoin(names + [kept]);
    }
  }

  // ---------------------------------------------------------------------------------------------------------------
  // Writes that are cut short

  /** A cut text ends inside, or right after, some line. */
  lemma {:induction false} CutJoin(names: seq<string>, n: nat) returns (k: nat, part: string)
    requires names != [] && n <= |Join(names)|
    ensures k < |names| && part <= names[k]
    ensures Join(names)[..n] == if k == 0 then part else Join(names[..k] + [part])
  {
    var m := |names| - 1;
    assert names == names[..m] + [names[m]];
    if m == 0 {
      k, part := 0, names[0][..n];
    } else {
      JoinSnoc(names[..m], names[m]);
      var front := Join(names[..m]);
      if n <= |front| {
        k, part := CutJoin(names[..m], n);
        assert names[..m][..k] == names[..k];
        assert Join(names)[..n] == front[..n];
      } else {
        k, part := m, names[m][..n - |front| - 1];
        JoinSnoc(names[..m], part);
      }
    }
  }

  lemma CutName(name: string, part: string)
    requires GoodName(name) && part <= name
    ensures OneLine(part) && TrimLeft(part) == part
  {
  }

  lemma LastOrNone(parts: seq<string>, last: string)
    requires "" !in parts
    ensures Without(parts + [last], "") == parts + (if last == "" then [] else [last])
  {
    WithoutAbsent(parts, "");
    assert (parts + [last])[..|parts|] == parts;
  }

  lemma ActiveAfterCut(names: seq<string>, n: nat) returns (k: nat, part: string)
    requires names != [] && GoodNames(names) && n <= |Join(names)|
    ensures k < |names| && part <= names[k]
    ensures Join(names)[..n] == if k == 0 then part else Join(names[..k] + [part])
    ensures Active(Some(Join(names)[..n])) == names[..k] + (if TrimRight(part) == "" then [] else [TrimRight(part)])
  {
    k, part := CutJoin(names, n);
    CutName(names[k], part);
    var kept := TrimRight(part);
    if k == 0 {
      TrimmedIsOneLine(part);
      SplitLine(kept);
      LastOrNone([], kept);
      assert [] + [kept] == [kept];
    } else {
      var front := names[..k];
      JoinSnoc(front, part);
      TrimmedLine(front, part);
      WithoutAbsent(front, "");
      LastOrNone(front, kept);
    }
  }

  /**
   * After a write that was cut short the file lists the first names and, if the cut was inside a name, what is left of
   * it; all later names are lost, installed before or not.
   */
  lemma CutKeepsFirst(before: Option<string>, names: seq<string>, n: nat) returns (k: nat, part: string)
    requires names != [] && GoodNames(names) && n <= |Join(names)|
    ensures k < |names| && part <= names[k]
    ensures n == |if k == 0 then part else Join(names[..k] + [part])|
    ensures Active(Written(before, Join(names), Cut(n)))
         == names[..k] + (if TrimRight(part) == "" then [] else [TrimRight(part)])
  {
    k, part := ActiveAfterCut(names, n);
    assert n == |Join(names)[..n]|;
  }
}
