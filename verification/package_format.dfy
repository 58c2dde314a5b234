/** The update package: written by tqos-pack/pack-generate.sh, unpacked by ltm/update.c with split_line.
    A `char` stands for one byte, so lengths are in bytes. */
module PackageFormat {
  import opened Text

  const MAGIC := "wwcx"
  const UNPACK_MEM_MAXLEN := 4096

  datatype File = File(name: string, content: string)

  // The fields of a line: a character starts one if it is the first, or follows a separator.
  function Fields(line: string, sep: char): (f: seq<string>)
    ensures forall i :: 0 <= i < |f| ==> f[i] != ""
  {
    if line == "" then []
    else
      var init, c := line[..|line| - 1], line[|line| - 1];
      var f := Fields(init, sep);
      if c == sep then f
      else if init == "" || init[|init| - 1] == sep || f == [] then f + [[c]]
      else f[..|f| - 1] + [f[|f| - 1] + [c]]
  }

  // Where the line ends: at the end character, or with the text.
  function LineEnd(s: string, end: char): (k: nat)
    ensures k <= |s| && (k < |s| ==> s[k] == end) && forall i :: 0 <= i < k ==> s[i] != end
  {
    if s == "" || s[0] == end then 0 else 1 + LineEnd(s[1..], end)
  }

  lemma {:induction false} LineEndIs(s: string, end: char, k: nat)
    requires k <= |s| && (k < |s| ==> s[k] == end) && forall i :: 0 <= i < k ==> s[i] != end
    ensures LineEnd(s, end) == k
  {
    if k > 0 {
      LineEndIs(s[1..], end, k - 1);
    }
  }

  // A field as the source returns it: a place in the buffer and a length.
  datatype Cstr = Cstr(at: nat, len: nat)

  function Texts(buf: string, elts: seq<Cstr>): (t: seq<string>)
    requires forall i :: 0 <= i < |elts| ==> elts[i].at + elts[i].len <= |buf|
    ensures |t| == |elts|
  {
    seq(|elts|, i requires 0 <= i < |elts| => buf[elts[i].at..elts[i].at + elts[i].len])
  }

  lemma FieldsNext(line: string, c: char, sep: char)
    ensures var f := Fields(line, sep);
            Fields(line + [c], sep) == if c == sep then f
                                       else if line == "" || line[|line| - 1] == sep || f == [] then f + [[c]]
                                       else f[..|f| - 1] + [f[|f| - 1] + [c]]
  {
    assert (line + [c])[..|line|] == line;
  }

  lemma {:induction false} FieldsGrow(line: string, k: nat, sep: char)
    requires k <= |line|
    ensures |Fields(line[..k], sep)| <= |Fields(line, sep)|
    decreases |line| - k
  {
    if k < |line| {
      FieldsNext(line[..k], line[k], sep);
      assert line[..k + 1] == line[..k] + [line[k]];
      FieldsGrow(line, k + 1, sep);
    } else {
      assert line[..k] == line;
    }
  }

  // What the splitting loop has found in the text from s to k.
  ghost predicate SplitUpTo(buf: string, s: nat, k: nat, elts: seq<Cstr>, space: bool, sep: char) {
    && s <= k <= |buf|
    && (forall j :: 0 <= j < |elts| ==> elts[j].at + elts[j].len <= k)
    && Texts(buf, elts) == Fields(buf[s..k], sep)
    && (space <==> k == s || buf[k - 1] == sep)
    && (!space ==> elts != [] && elts[|elts| - 1].at + elts[|elts| - 1].len == k)
  }

  lemma SplitSeparator(buf: string, s: nat, k: nat, elts: seq<Cstr>, space: bool, sep: char)
    requires SplitUpTo(buf, s, k, elts, space, sep) && k < |buf| && buf[k] == sep
    ensures SplitUpTo(buf, s, k + 1, elts, true, sep)
  {
    FieldsNext(buf[s..k], buf[k], sep);
    assert buf[s..k + 1] == buf[s..k] + [buf[k]];
  }

  lemma TextsNext(buf: string, elts: seq<Cstr>, c: Cstr)
    requires (forall i :: 0 <= i < |elts| ==> elts[i].at + elts[i].len <= |buf|) && c.at + c.len <= |buf|
    ensures Texts(buf, elts + [c]) == Texts(buf, elts) + [buf[c.at..c.at + c.len]]
  {}

  lemma SplitStart(buf: string, s: nat, k: nat, elts: seq<Cstr>, sep: char)
    requires SplitUpTo(buf, s, k, elts, true, sep) && k < |buf| && buf[k] != sep
    ensures SplitUpTo(buf, s, k + 1, elts + [Cstr(k, 1)], false, sep)
  {
    hide Fields, Texts;
    FieldsNext(buf[s..k], buf[k], sep);
    assert buf[s..k + 1] == buf[s..k] + [buf[k]];
    assert buf[k..k + 1] == [buf[k]];
    TextsNext(buf, elts, Cstr(k, 1));
  }

  lemma SplitGrow(buf: string, s: nat, k: nat, elts: seq<Cstr>, sep: char)
    requires SplitUpTo(buf, s, k, elts, false, sep) && k < |buf| && buf[k] != sep
    ensures elts != []
    ensures var l := |elts| - 1;
            SplitUpTo(buf, s, k + 1, elts[..l] + [elts[l].(len := elts[l].len + 1)], false, sep)
  {
    hide Fields, Texts;
    var l := |elts| - 1;
    var e := elts[l];
    var e', before := e.(len := e.len + 1), Texts(buf, elts[..l]);
    assert elts == elts[..l] + [e];
    TextsNext(buf, elts[..l], e);
    TextsNext(buf, elts[..l], e');
    var f := Fields(buf[s..k], sep);
    assert f[..|f| - 1] == before && f[|f| - 1] == buf[e.at..k];
    FieldsNext(buf[s..k], buf[k], sep);
    assert buf[s..k + 1] == buf[s..k] + [buf[k]];
    assert buf[e.at..k + 1] == buf[e.at..k] + [buf[k]];
  }

  // At most n fields, as the caller's array has room for; the result is one past the end character,
  // or one past the end of the text.
  method SplitLine(buf: string, s: nat, e: nat, sep: char, end: char, n: nat) returns (next: nat, elts: seq<Cstr>)
    requires s <= e <= |buf| && |Fields(buf[s..e][..LineEnd(buf[s..e], end)], sep)| <= n
    ensures next == s + LineEnd(buf[s..e], end) + 1
    ensures forall i :: 0 <= i < |elts| ==> elts[i].at + elts[i].len <= next - 1
    ensures Texts(buf, elts) == Fields(buf[s..e][..LineEnd(buf[s..e], end)], sep)
  {
    hide Fields, SplitUpTo, Texts;
    var k, i, space := s, 0, true;
    elts := [];
    SplitNothing(buf, s, sep);
    ghost var line := buf[s..e];
    while k < e && i <= n
      invariant s <= k <= e && i == |elts| <= n
      invariant forall j :: 0 <= j < k - s ==> line[j] != end
      invariant SplitUpTo(buf, s, k, elts, space, sep)
      decreases e - k
    {
      if buf[k] == end {
        break;
      }
      if buf[k] == sep {
        SplitSeparator(buf, s, k, elts, space, sep);
        space := true;
      } else {
        if space {
          SplitStart(buf, s, k, elts, sep);
          i := i + 1;
          space := false;
          elts := elts + [Cstr(k, 0)];
        } else {
          SplitGrow(buf, s, k, elts, sep);
        }
        elts := elts[..i - 1] + [elts[i - 1].(len := elts[i - 1].len + 1)];
      }
      SplitFits(buf, s, k + 1, e, elts, space, sep, end, n);
      k := k + 1;
    }
    LineEndIs(line, end, k - s);
    SplitDone(buf, s, k, e, elts, space, sep);
    return k + 1, elts;
  }

  lemma SplitNothing(buf: string, s: nat, sep: char)
    requires s <= |buf|
    ensures SplitUpTo(buf, s, s, [], true, sep)
  {}

  lemma SplitFits(buf: string, s: nat, k: nat, e: nat, elts: seq<Cstr>, space: bool, sep: char, end: char, n: nat)
    requires s < k <= e <= |buf| && SplitUpTo(buf, s, k, elts, space, sep)
    requires |Fields(buf[s..e][..LineEnd(buf[s..e], end)], sep)| <= n
    requires forall j :: 0 <= j < k - s ==> buf[s..e][j] != end
    ensures |elts| <= n
  {
    var line := buf[s..e];
    var l := LineEnd(line, end);
    assert l < |line| ==> line[l] == end;
    assert k - s <= l;
    FieldsGrow(line[..l], k - s, sep);
    assert line[..k - s] == buf[s..k];
    assert line[..l][..k - s] == line[..k - s];
  }

  lemma SplitDone(buf: string, s: nat, k: nat, e: nat, elts: seq<Cstr>, space: bool, sep: char)
    requires s <= k <= e <= |buf| && SplitUpTo(buf, s, k, elts, space, sep)
    ensures forall i :: 0 <= i < |elts| ==> elts[i].at + elts[i].len <= k
    ensures Texts(buf, elts) == Fields(buf[s..e][..k - s], sep)
  {
    assert buf[s..e][..k - s] == buf[s..k];
  }

  // A manifest entry, and what the packer writes for a list of files.
  function Line(f: File): string { f.name + " " + Decimal(|f.content|) + ";" }

  function Manifest(files: seq<File>): string {
    if files == [] then "" else Line(files[0]) + Manifest(files[1..])
  }

  function Contents(files: seq<File>): string {
    if files == [] then "" else files[0].content + Contents(files[1..])
  }

  function Padded(s: string): string
    decreases 4 - |s|
  {
    if |s| >= 4 then s else Padded("0" + s)
  }

  function Package(files: seq<File>): string {
    MAGIC + Padded(Decimal(|Manifest(files)|)) + Manifest(files) + Contents(files)
  }

  lemma {:induction false} ManifestAppends(files: seq<File>, f: File)
    ensures Manifest(files + [f]) == Manifest(files) + Line(f)
    ensures Contents(files + [f]) == Contents(files) + f.content
  {
    if files == [] {
      assert files + [f] == [f];
    } else {
      assert (files + [f])[1..] == files[1..] + [f];
      ManifestAppends(files[1..], f);
    }
  }

  // The files of all directories, in order.
  function Flat(dirs: seq<seq<File>>): seq<File> { if dirs == [] then [] else dirs[0] + Flat(dirs[1..]) }

  lemma {:induction false} FlatAppends(dirs: seq<seq<File>>, d: seq<File>)
    ensures Flat(dirs + [d]) == Flat(dirs) + d
  {
    if dirs == [] {
      assert dirs + [d] == [d] && Flat([d][1..]) == [];
    } else {
      assert (dirs + [d])[1..] == dirs[1..] + [d];
      FlatAppends(dirs[1..], d);
    }
  }

  // A name that the shell keeps in one piece, and does not expand, where the script leaves it unquoted.
  predicate ShellWord(name: string) {
    ' ' !in name && '\t' !in name && '\n' !in name && '*' !in name && '?' !in name && '[' !in name
  }

  predicate ShellWords(files: seq<File>) { forall i :: 0 <= i < |files| ==> ShellWord(files[i].name) }

  // The script: directory by directory, file by file; then the length of the manifest, with zeros in front.
  method PackGenerate(dirs: seq<seq<File>>) returns (package: string)
    requires ShellWords(Flat(dirs))
    ensures package == Package(Flat(dirs))
  {
    hide Line, Package, Padded;
    var filesInfo, content := "", "";
    var i := 0;
    while i < |dirs|
      invariant i <= |dirs|
      invariant filesInfo == Manifest(Flat(dirs[..i])) && content == Contents(Flat(dirs[..i]))
    {
      var j := 0;
      assert Flat(dirs[..i]) + dirs[i][..0] == Flat(dirs[..i]);
      while j < |dirs[i]|
        invariant j <= |dirs[i]|
        invariant filesInfo == Manifest(Flat(dirs[..i]) + dirs[i][..j])
        invariant content == Contents(Flat(dirs[..i]) + dirs[i][..j])
      {
        var f := dirs[i][j];
        ManifestAppends(Flat(dirs[..i]) + dirs[i][..j], f);
        assert Flat(dirs[..i]) + dirs[i][..j] + [f] == Flat(dirs[..i]) + dirs[i][..j + 1];
        content := content + f.content;
        filesInfo := filesInfo + Line(f);
        j := j + 1;
      }
      assert dirs[i][..j] == dirs[i];
      FlatAppends(dirs[..i], dirs[i]);
      assert dirs[..i + 1] == dirs[..i] + [dirs[i]];
      i := i + 1;
    }
    assert dirs[..i] == dirs;
    var flen := Decimal(|filesInfo|);
    var k := |flen|;
    ghost var printed := flen;
    while k < 4
      invariant k == |flen| && Padded(flen) == Padded(printed)
    {
      PaddedStep(flen);
      flen := "0" + flen;
      k := k + 1;
    }
    PaddedDone(flen);
    PackageIs(Flat(dirs));
    package := MAGIC + flen + filesInfo + content;
  }

  lemma PaddedStep(s: string)
    requires |s| < 4
    ensures Padded("0" + s) == Padded(s)
  {}

  lemma PaddedDone(s: string)
    requires |s| >= 4
    ensures Padded(s) == s
  {}

  lemma PackageIs(files: seq<File>)
    ensures Package(files) == MAGIC + Padded(Decimal(|Manifest(files)|)) + Manifest(files) + Contents(files)
  {}

  // Whether all went well, and the files completely written.
  datatype Unpacked = Unpacked(ok: bool, files: seq<File>)

  function UnpackEntries(m: string, data: string): Unpacked
    decreases |m|
  {
    if m == "" then Unpacked(true, [])
    else
      var k := LineEnd(m, ';');
      var f := Fields(m[..k], ' ');
      if k == |m| || |f| != 2 then Unpacked(false, [])
      else
        var n := Atoi(f[1]);
        if n < 0 || n > |data| then Unpacked(false, [])
        else
          var rest := UnpackEntries(m[k + 1..], data[n..]);
          Unpacked(rest.ok, [File(CString(f[0]), data[..n])] + rest.files)
  }

  function Unpack(file: string): Unpacked {
    if |file| < 8 then Unpacked(false, [])
    else
      var h := Atoi(file[4..8]);
      if h < 0 || h > UNPACK_MEM_MAXLEN || h > |file| - 8 then Unpacked(false, [])
      else UnpackEntries(file[8..8 + h], file[8 + h..])
  }

  // No line of the manifest has more fields than the source's array.
  predicate FieldsFit(m: string)
    decreases |m|
  {
    var k := LineEnd(m, ';');
    |Fields(m[..k], ' ')| <= 2 && (k < |m| ==> FieldsFit(m[k + 1..]))
  }

  // What one entry amounts to.
  ghost predicate InstalledEntry(tmp: string, s: nat, file: string, pos: nat, ok: bool, f: File, next: nat, at: nat)
    requires s < |tmp| && pos <= |file|
  {
    var k := LineEnd(tmp[s..], ';');
    var t := Fields(tmp[s..][..k], ' ');
    && ok == (s + k < |tmp| && |t| == 2 && 0 <= Atoi(t[1]) <= |file| - pos)
    && (ok ==> next == s + k + 1 && at == pos + Atoi(t[1]) && f == File(CString(t[0]), file[pos..at]))
  }

  // The entry at s: its fields, and as many bytes as it announces.
  method InstallEntry(tmp: string, s: nat, file: string, pos: nat) returns (ok: bool, f: File, next: nat, at: nat)
    requires s < |tmp| && pos <= |file| && |Fields(tmp[s..][..LineEnd(tmp[s..], ';')], ' ')| <= 2
    ensures InstalledEntry(tmp, s, file, pos, ok, f, next, at)
  {
    hide Fields, LineEnd, Atoi, CString, Texts;
    f, at := File("", ""), pos;
    var elts;
    assert tmp[s..|tmp|] == tmp[s..];
    next, elts := SplitLine(tmp, s, |tmp|, ' ', ';', 2);
    if next > |tmp| || |elts| != 2 {
      return false, f, next, at;
    }
    FieldTexts(tmp, elts, Fields(tmp[s..][..next - 1 - s], ' '));
    var name := CString(tmp[elts[0].at..elts[0].at + elts[0].len]);
    var flen := Atoi(tmp[elts[1].at..elts[1].at + elts[1].len]);
    var save;
    ok, save := CopyOut(file, pos, flen);
    if ok {
      f, at := File(name, save), pos + flen;
    }
  }

  // The header does not announce a negative length, and the manifest that is read holds no line of too many fields.
  predicate InDomain(file: string) {
    |file| >= 8 ==>
      var h := Atoi(file[4..8]);
      h >= 0 && (h <= UNPACK_MEM_MAXLEN && 8 + h <= |file| ==> FieldsFit(file[8..8 + h]))
  }

  // A directory is a map from names to contents. Opening a file to write it drops what the name held before.
  function Saved(dir: map<string, string>, files: seq<File>): map<string, string> {
    if files == [] then dir
    else
      var f := files[|files| - 1];
      Saved(dir, files[..|files| - 1])[f.name := f.content]
  }

  lemma SavedNext(dir: map<string, string>, files: seq<File>, f: File)
    ensures Saved(dir, files + [f]) == Saved(dir, files)[f.name := f.content]
  {
    assert (files + [f])[..|files|] == files;
  }

  // The files, as they are opened and filled 512 bytes at a time, into the directory.
  method InstallUnpackFile(file: string, before: map<string, string>)
    returns (ok: bool, written: seq<File>, dir: map<string, string>)
    requires InDomain(file)
    ensures Unpacked(ok, written) == Unpack(file)
    ensures ok ==> dir == Saved(before, written)
  {
    hide Fields, LineEnd, Atoi, CString, Texts;
    ok, written, dir := false, [], before;
    if |file| < 8 {
      return;
    }
    var hdrlen := Atoi(file[4..8]);
    if hdrlen > UNPACK_MEM_MAXLEN {
      return;
    }
    if |file| - 8 < hdrlen {
      return;
    }
    var tmp: string, pos: nat := file[8..8 + hdrlen], 8 + hdrlen;
    assert tmp[0..] == tmp;
    hide Unpack, UnpackEntries, FieldsFit, Installing, InstalledEntry;
    InstallStart(file, tmp, pos);
    var s, e := 0, |tmp|;
    while s < e
      invariant s <= e == |tmp| && pos <= |file| && Installing(file, tmp, s, pos, written)
      invariant !ok && dir == Saved(before, written)
      decreases e - s
    {
      InstallLine(file, tmp, s, pos, written);
      var got, f, next, at := InstallEntry(tmp, s, file, pos);
      InstallOn(file, tmp, s, pos, written, got, f, next, at);
      if !got {
        return;
      }
      SavedNext(before, written, f);
      written, dir := written + [f], dir[f.name := f.content];
      s, pos := next, at;
    }
    InstallEnd(file, tmp, s, pos, written);
    ok := true;
  }

  // The files written so far, and what is still to be done.
  ghost predicate Installing(file: string, tmp: string, s: nat, pos: nat, written: seq<File>) {
    && s <= |tmp| && pos <= |file| && FieldsFit(tmp[s..])
    && var r := UnpackEntries(tmp[s..], file[pos..]);
       Unpack(file) == Unpacked(r.ok, written + r.files)
  }

  lemma InstallStart(file: string, tmp: string, pos: nat)
    requires 8 <= |file| && pos == 8 + |tmp| <= |file| && tmp == file[8..pos] && |tmp| <= UNPACK_MEM_MAXLEN
    requires Atoi(file[4..8]) == |tmp| && FieldsFit(tmp)
    ensures Installing(file, tmp, 0, pos, [])
  {
    hide Atoi, FieldsFit, UnpackEntries;
    assert tmp[0..] == tmp;
    var r := UnpackEntries(tmp, file[pos..]);
    assert [] + r.files == r.files;
  }

  lemma InstallLine(file: string, tmp: string, s: nat, pos: nat, written: seq<File>)
    requires Installing(file, tmp, s, pos, written)
    ensures s <= |tmp| && |Fields(tmp[s..][..LineEnd(tmp[s..], ';')], ' ')| <= 2
  {}

  lemma InstallOn(file: string, tmp: string, s: nat, pos: nat, written: seq<File>, ok: bool, f: File, next: nat, at: nat)
    requires Installing(file, tmp, s, pos, written) && s < |tmp| && pos <= |file|
    requires InstalledEntry(tmp, s, file, pos, ok, f, next, at)
    ensures if ok then next <= |tmp| && s < next && at <= |file| && Installing(file, tmp, next, at, written + [f])
            else Unpack(file) == Unpacked(false, written)
  {
    hide Fields, LineEnd, Atoi, CString, Unpack, UnpackEntries, FieldsFit;
    EntryStep(tmp, s, file, pos);
    if ok {
      var rest := UnpackEntries(tmp[next..], file[at..]);
      assert written + ([f] + rest.files) == written + [f] + rest.files;
    }
  }

  lemma InstallEnd(file: string, tmp: string, s: nat, pos: nat, written: seq<File>)
    requires Installing(file, tmp, s, pos, written) && s == |tmp|
    ensures Unpack(file) == Unpacked(true, written)
  {
    EntriesNone(tmp[s..], file[pos..]);
  }

  lemma EntriesNone(m: string, data: string)
    requires m == ""
    ensures UnpackEntries(m, data) == Unpacked(true, [])
  {}

  // One line of the manifest.
  lemma EntryStep(tmp: string, s: nat, file: string, pos: nat)
    requires s < |tmp| && pos <= |file| && FieldsFit(tmp[s..])
    ensures var k := LineEnd(tmp[s..], ';');
            var f := Fields(tmp[s..][..k], ' ');
            && |f| <= 2
            && (s + k < |tmp| ==> FieldsFit(tmp[s + k + 1..]))
            && UnpackEntries(tmp[s..], file[pos..]) ==
                 if s + k == |tmp| || |f| != 2 || !(0 <= Atoi(f[1]) <= |file| - pos) then Unpacked(false, [])
                 else
                   var n := Atoi(f[1]);
                   var rest := UnpackEntries(tmp[s + k + 1..], file[pos + n..]);
                   Unpacked(rest.ok, [File(CString(f[0]), file[pos..pos + n])] + rest.files)
  {
    hide Fields, LineEnd, Atoi, CString;
    var k := LineEnd(tmp[s..], ';');
    if s + k < |tmp| {
      assert tmp[s..][k + 1..] == tmp[s + k + 1..];
      var f := Fields(tmp[s..][..k], ' ');
      if |f| == 2 && 0 <= Atoi(f[1]) <= |file| - pos {
        var n := Atoi(f[1]);
        assert file[pos..][n..] == file[pos + n..] && file[pos..][..n] == file[pos..pos + n];
      }
    }
  }

  lemma FieldTexts(tmp: string, elts: seq<Cstr>, f: seq<string>)
    requires |elts| == 2 && forall i :: 0 <= i < |elts| ==> elts[i].at + elts[i].len <= |tmp|
    requires Texts(tmp, elts) == f
    ensures f == [tmp[elts[0].at..elts[0].at + elts[0].len], tmp[elts[1].at..elts[1].at + elts[1].len]]
  {}

  method CopyOut(file: string, pos: nat, len: int) returns (ok: bool, save: string)
    requires pos <= |file|
    ensures ok == (0 <= len <= |file| - pos)
    ensures ok ==> save == file[pos..pos + len]
  {
    save := "";
    var flen, at := len, pos;
    while flen > 0
      invariant at + flen == pos + len && pos <= at <= |file| && save == file[pos..at]
      invariant len >= 0 ==> flen >= 0
    {
      var once := if flen > 512 then 512 else flen;
      if |file| - at < once {
        return false, save;
      }
      save := save + file[at..at + once];
      flen, at := flen - once, at + once;
    }
    if flen != 0 {
      return false, save;
    }
    return true, save;
  }
}
