/** The path and file-type helpers of the compiler drivers: src/main.cpp
    (module Driver) and src/main.c (module DriverC). Both pick an input
    file's type from its extension through the same two tables; the C
    driver only knows '/' as a directory separator, the C++ driver also
    knows '\'. */
module Driver {
  import opened Wrappers

  /** std::string::find_last_of and strrchr: the last index of `s` holding
      one of `chars`. */
  function FindLast(s: string, chars: set<char>): (r: Option<nat>)
    ensures r.Some? ==> r.value < |s| && s[r.value] in chars
    ensures r.Some? ==> forall k :: r.value < k < |s| ==> s[k] !in chars
    ensures r.None? ==> forall k :: 0 <= k < |s| ==> s[k] !in chars
    decreases |s|
  {
    if s == [] then None
    else if s[|s| - 1] in chars then Some(|s| - 1)
    else FindLast(s[..|s| - 1], chars)
  }

  /** The directory separators of the C++ driver. */
  const Separators: set<char> := {'/', '\\'}

  /** clamp (src/main.cpp and src/main.c alike). */
  function Clamp(v: int, min: int, max: int): (r: int)
    ensures min <= max ==> min <= r <= max
    ensures min <= v <= max ==> r == v
    ensures v < min ==> r == min
    ensures min <= v && max < v ==> r == max
  {
    if v < min then min else if v > max then max else v
  }

  /** Clamping twice is clamping once. */
  lemma ClampIdempotent(v: int, min: int, max: int)
    requires min <= max
    ensures Clamp(Clamp(v, min, max), min, max) == Clamp(v, min, max)
  {
  }

  /** basename: everything after the last separator. */
  method Basename(path: string) returns (r: string)
    ensures |r| <= |path| && path[|path| - |r|..] == r
    ensures forall k :: 0 <= k < |r| ==> r[k] !in Separators
    ensures |r| < |path| ==> path[|path| - |r| - 1] in Separators
  {
    r := path;
    var slashIndex := FindLast(path, Separators);
    if slashIndex.Some? {
      r := r[slashIndex.value + 1..];
    }
  }

  /** Position `i` of `path` is the dot that starts its extension: not the
      first character, and followed by no other dot and no separator. */
  ghost predicate ExtensionAt(path: string, seps: set<char>, i: int)
  {
    0 < i < |path| && path[i] == '.' && forall k :: i < k < |path| ==> path[k] != '.' && path[k] !in seps
  }

  /** `path` has an extension. */
  ghost predicate HasExtension(path: string, seps: set<char>)
  {
    exists i :: ExtensionAt(path, seps, i)
  }

  /** The dot getExtension and get_extension look at, when it starts an
      extension: the last dot, unless it is the first character or comes
      before the last separator. */
  function ExtensionDot(path: string, seps: set<char>): (r: Option<nat>)
    ensures r.Some? <==> HasExtension(path, seps)
    ensures r.Some? ==> ExtensionAt(path, seps, r.value)
  {
    var slashIndex := FindLast(path, seps);
    var dotIndex := FindLast(path, {'.'});
    if dotIndex.None? || dotIndex.value == 0 || (slashIndex.Some? && dotIndex.value < slashIndex.value) then
      NoExtension(path, seps, dotIndex, slashIndex);
      None
    else
      assert ExtensionAt(path, seps, dotIndex.value);
      dotIndex
  }

  /** No position starts an extension when the last dot is missing, first,
      or before the last separator. */
  lemma NoExtension(path: string, seps: set<char>, dotIndex: Option<nat>, slashIndex: Option<nat>)
    requires dotIndex == FindLast(path, {'.'}) && slashIndex == FindLast(path, seps)
    requires dotIndex.None? || dotIndex.value == 0 || (slashIndex.Some? && dotIndex.value < slashIndex.value)
    ensures !HasExtension(path, seps)
  {
    forall i ensures !ExtensionAt(path, seps, i) {
      if 0 < i < |path| && path[i] == '.' && forall k :: i < k < |path| ==> path[k] != '.' {
        assert dotIndex == Some(i);
        assert i < slashIndex.value < |path| && path[slashIndex.value] in seps;
      }
    }
  }

  /** getExtension (separators '/' and '\') and get_extension (separator
      '/'): the text after the dot that starts the extension, or "". */
  function Extension(path: string, seps: set<char>): (r: string)
    ensures forall i :: ExtensionAt(path, seps, i) ==> r == path[i + 1..]
    ensures !HasExtension(path, seps) ==> r == []
  {
    match ExtensionDot(path, seps)
    case None => []
    case Some(dotIndex) =>
      ExtensionUnique(path, seps, dotIndex);
      path[dotIndex + 1..]
  }

  /** Only one position starts an extension. */
  lemma ExtensionUnique(path: string, seps: set<char>, i: int)
    requires ExtensionAt(path, seps, i)
    ensures forall j :: ExtensionAt(path, seps, j) ==> j == i
  {
    forall j | ExtensionAt(path, seps, j)
      ensures j == i
    {
      assert path[i] == '.' && path[j] == '.';
    }
  }

  /** getExtension, with '/' and '\' as separators. */
  function GetExtension(path: string): (r: string)
    ensures forall i :: ExtensionAt(path, Separators, i) ==> r == path[i + 1..]
    ensures !HasExtension(path, Separators) ==> r == []
  {
    Extension(path, Separators)
  }

  /** The four cases the comment of getExtension documents. */
  lemma GetExtensionDocumented()
    ensures GetExtension("file.ext") == "ext"
    ensures GetExtension("file") == ""
    ensures GetExtension("path.ext/file") == ""
    ensures GetExtension(".file") == ""
  {
    assert ExtensionAt("file.ext", Separators, 4);
    assert !HasExtension("file", Separators) by {
      forall i | 0 < i < 4 ensures "file"[i] != '.' { }
    }
    assert !HasExtension("path.ext/file", Separators) by {
      forall i ensures !ExtensionAt("path.ext/file", Separators, i) {
        if 0 < i < 8 {
          assert "path.ext/file"[8] in Separators;
        }
      }
    }
    assert !HasExtension(".file", Separators) by {
      forall i ensures !ExtensionAt(".file", Separators, i) { }
    }
  }

  /** An extension holds no dot and no separator. */
  lemma ExtensionPlain(path: string, seps: set<char>)
    ensures forall k :: 0 <= k < |Extension(path, seps)| ==> Extension(path, seps)[k] != '.' && Extension(path, seps)[k] !in seps
  {
    if i :| ExtensionAt(path, seps, i) {
      assert Extension(path, seps) == path[i + 1..];
    }
  }

  /** `path` without its extension and the dot before it. */
  function Stem(path: string, seps: set<char>): (r: string)
    ensures HasExtension(path, seps) ==> path == r + "." + Extension(path, seps)
    ensures !HasExtension(path, seps) ==> r == path
  {
    match ExtensionDot(path, seps)
    case None => path
    case Some(dotIndex) =>
      assert path == path[..dotIndex] + "." + path[dotIndex + 1..];
      path[..dotIndex]
  }

  /** replaceExtension: strip the extension, if any, then append '.' and the
      new one. */
  method ReplaceExtension(path: string, newExtension: string) returns (r: string)
    ensures r == Stem(path, Separators) + "." + newExtension
  {
    r := path;
    var slashIndex := FindLast(r, Separators);
    var dotIndex := FindLast(r, {'.'});
    if dotIndex.None? || dotIndex.value == 0 || (slashIndex.Some? && dotIndex.value < slashIndex.value) {
      // no extension to remove
    } else {
      r := r[..dotIndex.value];
    }
    r := r + "." + newExtension;
  }

  /** A replaced extension reads back, unless nothing is left before it
      (".e" starts with its dot and so has no extension). */
  lemma ReplacedExtensionReads(path: string, seps: set<char>, newExtension: string)
    requires Stem(path, seps) != []
    requires forall k :: 0 <= k < |newExtension| ==> newExtension[k] != '.' && newExtension[k] !in seps
    ensures Extension(Stem(path, seps) + "." + newExtension, seps) == newExtension
    ensures Stem(Stem(path, seps) + "." + newExtension, seps) == Stem(path, seps)
  {
    var stem := Stem(path, seps);
    var r := stem + "." + newExtension;
    assert ExtensionAt(r, seps, |stem|) by {
      forall k | |stem| < k < |r| ensures r[k] != '.' && r[k] !in seps {
        assert r[k] == newExtension[k - |stem| - 1];
      }
    }
    assert r[|stem| + 1..] == newExtension;
    assert r[..|stem|] == stem;
  }

  /** replaceExtension on a path whose name does not start the extension's
      dot: the new extension is the path's extension afterwards, and
      replacing it again changes nothing. */
  lemma ReplaceExtensionTwice(path: string, newExtension: string)
    requires Stem(path, Separators) != []
    requires forall k :: 0 <= k < |newExtension| ==> newExtension[k] != '.' && newExtension[k] !in Separators
    ensures var once := Stem(path, Separators) + "." + newExtension;
      && GetExtension(once) == newExtension
      && Stem(once, Separators) + "." + newExtension == once
  {
    ReplacedExtensionReads(path, Separators, newExtension);
  }

  /** The input file types, by index: Frontend::compile for "hdl" and
      Intermediate::File::read for "intermediate". */
  const InputFileTypes: seq<string> := ["hdl", "intermediate"]

  /** Extension to type name; "*" matches every extension. */
  const InputFileExtensions: seq<(string, string)> := [("hdl", "hdl"), ("*", "intermediate")]

  /** A row applies to an extension when it names it or is the wildcard "*". */
  predicate RowMatches(row: (string, string), extension: string)
  {
    row.0 == extension || row.0 == "*"
  }

  /** The type name of the first row of `rows` matching `extension`. */
  function FirstMatch(rows: seq<(string, string)>, extension: string): (r: Option<string>)
    ensures r.Some? <==> exists k :: 0 <= k < |rows| && RowMatches(rows[k], extension)
    ensures r.Some? ==> exists k :: 0 <= k < |rows| && RowMatches(rows[k], extension) && r.value == rows[k].1
                                     && forall j :: 0 <= j < k ==> !RowMatches(rows[j], extension)
    decreases |rows|
  {
    if rows == [] then None
    else if RowMatches(rows[0], extension) then Some(rows[0].1)
    else
      var r := FirstMatch(rows[1..], extension);
      assert forall k :: 1 <= k < |rows| ==> rows[k] == rows[1..][k - 1];
      if r.Some? then
        var k :| 0 <= k < |rows[1..]| && RowMatches(rows[1..][k], extension) && r.value == rows[1..][k].1
                 && forall j :: 0 <= j < k ==> !RowMatches(rows[1..][j], extension);
        assert forall j :: 0 <= j < k + 1 ==> !RowMatches(rows[j], extension) by {
          forall j | 0 <= j < k + 1 ensures !RowMatches(rows[j], extension) {
            if j > 0 { assert rows[j] == rows[1..][j - 1]; }
          }
        }
        assert RowMatches(rows[k + 1], extension) && r.value == rows[k + 1].1;
        r
      else r
  }

  /** The index of the first entry of `names` equal to `name`. */
  function IndexOf(names: seq<string>, name: string): (r: Option<nat>)
    ensures r.Some? ==> r.value < |names| && names[r.value] == name
    ensures r.Some? ==> forall k :: 0 <= k < r.value ==> names[k] != name
    ensures r.None? ==> forall k :: 0 <= k < |names| ==> names[k] != name
    decreases |names|
  {
    if names == [] then None
    else if names[0] == name then Some(0)
    else match IndexOf(names[1..], name)
      case None => None
      case Some(i) => Some(i + 1)
  }

  /** The type auto-detection picks: 0 ("hdl") for the extension "hdl",
      1 ("intermediate") for every other extension. */
  function AutoType(extension: string): (t: nat)
  {
    if extension == "hdl" then 0 else 1
  }

  /** The tables always resolve: "hdl" names type 0 and every other
      extension falls to the "*" row and type 1. */
  lemma TablesResolve(extension: string)
    ensures FirstMatch(InputFileExtensions, extension).Some?
    ensures IndexOf(InputFileTypes, FirstMatch(InputFileExtensions, extension).value) == Some(AutoType(extension))
  {
    assert InputFileExtensions[1].0 == "*";
    if extension == "hdl" {
      assert FirstMatch(InputFileExtensions, extension) == Some("hdl");
    } else {
      assert FirstMatch(InputFileExtensions[1..], extension) == Some("intermediate");
      assert InputFileTypes[1..][0] == "intermediate";
      assert InputFileTypes[0] != "intermediate";
    }
  }

  /** detectInputFileType: the given type unless it is -1, otherwise the type
      the extension's table row names. Both tables always resolve, so the
      two errors the source raises when they do not cannot occur. */
  method DetectInputFileType(path: string, defaultType: int) returns (t: int)
    ensures defaultType != -1 ==> t == defaultType
    ensures defaultType == -1 ==> t == AutoType(GetExtension(path))
  {
    if defaultType != -1 {
      return defaultType;
    }
    var extension := GetExtension(path);
    TablesResolve(extension);
    var typeName := SearchExtensions(extension);
    t := SearchTypes(typeName);
  }

  /** The search over InputFileExtensions. */
  method SearchExtensions(extension: string) returns (typeName: string)
    requires FirstMatch(InputFileExtensions, extension).Some?
    ensures typeName == FirstMatch(InputFileExtensions, extension).value
  {
    var i := 0;
    while i < |InputFileExtensions|
      invariant 0 <= i <= |InputFileExtensions|
      invariant FirstMatch(InputFileExtensions[i..], extension) == FirstMatch(InputFileExtensions, extension)
    {
      var row := InputFileExtensions[i];
      assert InputFileExtensions[i..][0] == row;
      if row.0 == extension || row.0 == "*" {
        return row.1;
      }
      assert InputFileExtensions[i..][1..] == InputFileExtensions[i + 1..];
      i := i + 1;
    }
    typeName := FirstMatch(InputFileExtensions[i..], extension).value;
  }

  /** The search over InputFileTypes. */
  method SearchTypes(typeName: string) returns (t: nat)
    requires IndexOf(InputFileTypes, typeName).Some?
    ensures t == IndexOf(InputFileTypes, typeName).value
  {
    t := 0;
    while t < |InputFileTypes|
      invariant t <= IndexOf(InputFileTypes, typeName).value
    {
      if InputFileTypes[t] == typeName {
        return;
      }
      t := t + 1;
    }
  }
}

/** The C driver's helpers (src/main.c). */
module DriverC {
  import opened Wrappers
  import Driver

  /** get_extension: strrchr for '/' and '.', with only '/' a separator. */
  function GetExtension(filename: string): (r: string)
    ensures forall i :: Driver.ExtensionAt(filename, {'/'}, i) ==> r == filename[i + 1..]
    ensures !Driver.HasExtension(filename, {'/'}) ==> r == []
  {
    Driver.Extension(filename, {'/'})
  }

  /** Unlike getExtension, get_extension does not treat '\' as a separator. */
  lemma BackslashNotSeparator()
    ensures GetExtension("dir.v\\file") == "v\\file"
    ensures Driver.GetExtension("dir.v\\file") == ""
  {
    var path := "dir.v\\file";
    assert Driver.ExtensionAt(path, {'/'}, 3);
    assert !Driver.HasExtension(path, Driver.Separators) by {
      forall i ensures !Driver.ExtensionAt(path, Driver.Separators, i) {
        if 0 < i < 3 || 3 < i < |path| {
          assert path[i] != '.';
        } else if i == 3 {
          assert path[5] in Driver.Separators;
        }
      }
    }
  }

  /** One entry of the input_files array. */
  datatype InputFile = InputFile(name: string, fileType: int)

  /** The input_files array and its count, grown by add_input_file. */
  class InputFiles {
    var files: seq<InputFile>

    constructor ()
      ensures files == []
    {
      files := [];
    }

    /** add_input_file: resolve type -1 from the extension through the same
        two tables as the C++ driver, then grow the array by one entry.
        Both tables always resolve, so it always returns 0. */
    method AddInputFile(name: string, fileType: int) returns (status: int)
      modifies this
      ensures status == 0
      ensures fileType != -1 ==> files == old(files) + [InputFile(name, fileType)]
      ensures fileType == -1 ==> files == old(files) + [InputFile(name, Driver.AutoType(GetExtension(name)))]
    {
      var resolved := fileType;
      if resolved == -1 {
        var extension := GetExtension(name);
        Driver.TablesResolve(extension);
        var typeName := Driver.SearchExtensions(extension);
        resolved := Driver.SearchTypes(typeName);
      }
      files := files + [InputFile(name, resolved)];
      status := 0;
    }
  }
}
