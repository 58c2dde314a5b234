/** Unpacking what was packed, and the bound on the manifest. */
module PackageRoundTrip {
  import opened Text
  import opened PackageFormat

  // Names the format can carry.
  predicate Named(f: File) { f.name != "" && ' ' !in f.name && ';' !in f.name && '\0' !in f.name }

  // A word after nothing, or after a separator, is a field of its own.
  lemma {:induction false} FieldsWord(p: string, w: string, sep: char)
    requires p == "" || p[|p| - 1] == sep
    requires w != "" && sep !in w
    ensures Fields(p + w, sep) == Fields(p, sep) + [w]
    decreases |w|
  {
    hide Fields;
    var init, c := w[..|w| - 1], w[|w| - 1];
    assert p + w == p + init + [c] && w == init + [c];
    FieldsNext(p + init, c, sep);
    if init == "" {
      assert p + init == p;
    } else {
      assert init[|init| - 1] in w;
      FieldsWord(p, init, sep);
    }
  }

  lemma FieldsOfLine(name: string, digits: string)
    requires name != "" && ' ' !in name && digits != "" && ' ' !in digits
    ensures Fields(name + " " + digits, ' ') == [name, digits]
  {
    hide Fields;
    FieldsWord("", name, ' ');
    assert "" + name == name;
    NoFields(' ');
    FieldsNext(name, ' ', ' ');
    FieldsWord(name + " ", digits, ' ');
  }

  lemma NoFields(sep: char)
    ensures Fields("", sep) == []
  {}

  lemma DigitsAreNot(s: string, c: char)
    requires AllDigits(s) && !IsDigit(c)
    ensures c !in s
  {}

  // The first line of a manifest, perhaps with something before the name.
  lemma FirstLine(pre: string, f: File, rest: string)
    requires Named(f) && ';' !in pre && ' ' !in pre
    ensures var m := pre + Line(f) + rest;
            var k := |pre| + |f.name| + 1 + |Decimal(|f.content|)|;
            && LineEnd(m, ';') == k < |m| && m[k + 1..] == rest
            && Fields(m[..k], ' ') == [pre + f.name, Decimal(|f.content|)]
  {
    hide Fields, LineEnd, Decimal;
    var d := Decimal(|f.content|);
    DigitsAreNot(d, ';');
    DigitsAreNot(d, ' ');
    var line := pre + f.name + " " + d;
    var m := pre + Line(f) + rest;
    assert m == line + ";" + rest;
    assert ';' !in line;
    assert forall i :: 0 <= i < |line| ==> m[i] == line[i];
    LineEndIs(m, ';', |line|);
    assert m[..|line|] == line;
    FieldsOfLine(pre + f.name, d);
  }

  lemma UnpackFirst(m: string, data: string, k: nat, name: string, digits: string)
    requires LineEnd(m, ';') == k < |m| && Fields(m[..k], ' ') == [name, digits] && 0 <= Atoi(digits) <= |data|
    ensures var n := Atoi(digits);
            var r := UnpackEntries(m[k + 1..], data[n..]);
            UnpackEntries(m, data) == Unpacked(r.ok, [File(CString(name), data[..n])] + r.files)
  {
    hide Fields, LineEnd, Atoi, CString;
  }

  lemma EntryRoundTrip(f: File, m: string, data: string, rest: seq<File>)
    requires Named(f) && UnpackEntries(m, data) == Unpacked(true, rest)
    ensures UnpackEntries(Line(f) + m, f.content + data) == Unpacked(true, [f] + rest)
  {
    hide Fields, LineEnd, Decimal, Atoi, CString, Line, UnpackEntries;
    FirstLine("", f, m);
    assert "" + Line(f) + m == Line(f) + m && "" + f.name == f.name;
    AtoiOfDecimal(|f.content|);
    CStringWhole(f.name);
    UnpackFirst(Line(f) + m, f.content + data, |f.name| + 1 + |Decimal(|f.content|)|, f.name, Decimal(|f.content|));
    assert (f.content + data)[..|f.content|] == f.content && (f.content + data)[|f.content|..] == data;
  }

  // The manifest and the contents give back the files.
  lemma {:induction false} EntriesRoundTrip(files: seq<File>)
    requires forall i :: 0 <= i < |files| ==> Named(files[i])
    ensures UnpackEntries(Manifest(files), Contents(files)) == Unpacked(true, files)
  {
    if files != [] {
      hide UnpackEntries, Line, Named;
      EntriesRoundTrip(files[1..]);
      EntryRoundTrip(files[0], Manifest(files[1..]), Contents(files[1..]), files[1..]);
      assert files == [files[0]] + files[1..];
    }
  }

  lemma {:induction false} PaddedReads(s: string)
    requires s != "" && AllDigits(s)
    ensures AllDigits(Padded(s)) && Atoi(Padded(s)) == Atoi(s)
    ensures |Padded(s)| == if |s| < 4 then 4 else |s|
    decreases 4 - |s|
  {
    if |s| < 4 {
      assert AllDigits("0" + s);
      PaddedReads("0" + s);
      AtoiOfPadded(s);
    }
  }

  // The parts of a package whose header has four digits.
  lemma PackageParts(files: seq<File>)
    requires |Manifest(files)| < 10000
    ensures var p, n := Package(files), |Manifest(files)|;
            && |p| == 8 + n + |Contents(files)| && Atoi(p[4..8]) == n
            && p[8..8 + n] == Manifest(files) && p[8 + n..] == Contents(files)
  {
    hide Manifest, Contents, Decimal, Padded, Atoi;
    var p, m, d := Package(files), Manifest(files), Decimal(|Manifest(files)|);
    DecimalLength(|m|);
    PaddedReads(d);
    AtoiOfDecimal(|m|);
    assert p[4..8] == Padded(d);
    assert p[8..] == m + Contents(files);
    assert p[8..8 + |m|] == p[8..][..|m|] && p[8 + |m|..] == p[8..][|m|..];
  }

  // Unpacking a package gives back its files ...
  lemma PackRoundTrip(files: seq<File>)
    requires forall i :: 0 <= i < |files| ==> Named(files[i])
    requires |Manifest(files)| <= UNPACK_MEM_MAXLEN
    ensures Unpack(Package(files)) == Unpacked(true, files)
  {
    hide Manifest, Contents, Package, UnpackEntries, Atoi;
    PackageParts(files);
    EntriesRoundTrip(files);
  }

  // ... and with a longer manifest it never does: either the header is refused,
  // or its first four digits are taken for the length and the others for part of a name.
  lemma LongManifestFails(files: seq<File>)
    requires forall i :: 0 <= i < |files| ==> Named(files[i])
    requires |Manifest(files)| > UNPACK_MEM_MAXLEN
    ensures Unpack(Package(files)) != Unpacked(true, files)
  {
    hide Manifest, Contents, Package, UnpackEntries, Atoi, Decimal, Padded;
    var p, m := Package(files), Manifest(files);
    if |m| < 10000 {
      PackageParts(files);
    } else {
      var d := Decimal(|m|);
      DecimalLength(|m|);
      PaddedDone(d);
      PackageIs(files);
      assert p[8..] == d[4..] + m + Contents(files);
      var h := Atoi(p[4..8]);
      if 0 <= h <= |p| - 8 {
        assert p[8..8 + h] == p[8..][..h];
        MisreadEntries(files, d[4..], h, p[8 + h..]);
      }
    }
  }

  lemma MisreadEntries(files: seq<File>, pre: string, h: nat, data: string)
    requires (forall i :: 0 <= i < |files| ==> Named(files[i])) && Manifest(files) != ""
    requires pre != "" && AllDigits(pre) && h <= |pre + Manifest(files) + Contents(files)|
    ensures UnpackEntries((pre + Manifest(files) + Contents(files))[..h], data) != Unpacked(true, files)
  {
    hide Fields, LineEnd, Decimal, Atoi, CString, Contents, Line;
    var f, rest := files[0], Manifest(files[1..]) + Contents(files);
    var all := pre + Manifest(files) + Contents(files);
    DigitsAreNot(pre, ';');
    DigitsAreNot(pre, ' ');
    DigitsAreNot(pre, '\0');
    FirstLine(pre, f, rest);
    assert all == pre + Line(f) + rest;
    var k, m := LineEnd(all, ';'), all[..h];
    if h <= k {
      LineEndIs(m, ';', h);
    } else {
      LineEndIs(m, ';', k);
      assert m[..k] == all[..k];
      CStringWhole(pre + f.name);
      assert |pre + f.name| > |f.name|;
    }
  }

  // Fields are made of characters of the line, without the separator.
  lemma {:induction false} FieldChars(line: string, sep: char, i: nat, c: char)
    requires i < |Fields(line, sep)| && c in Fields(line, sep)[i]
    ensures c in line && c != sep
  {
    var init, last := line[..|line| - 1], line[|line| - 1];
    assert line == init + [last];
    FieldsNext(init, last, sep);
    var f := Fields(init, sep);
    if i < |f| && c in f[i] {
      FieldChars(init, sep, i, c);
    }
  }

  // A name that could have been read.
  predicate Readable(name: string) { ' ' !in name && ';' !in name && '\0' !in name }

  lemma FirstField(m: string, k: nat)
    requires k == LineEnd(m, ';') && |Fields(m[..k], ' ')| == 2
    ensures var name := CString(Fields(m[..k], ' ')[0]);
            Readable(name) && ('\0' !in m ==> name != "")
  {
    hide Fields, LineEnd, CString;
    var f := Fields(m[..k], ' ')[0];
    forall c | c in f ensures c in m && c != ' ' && c != ';' {
      FieldChars(m[..k], ' ', 0, c);
      assert exists i :: 0 <= i < k && m[i] == c;
    }
    PartOf(CString(f), f);
  }

  lemma PartOf(r: string, s: string)
    requires r <= s
    ensures forall c :: c in r ==> c in s
  {
    forall c | c in r ensures c in s {
      var i :| 0 <= i < |r| && r[i] == c;
      assert s[i] == c;
    }
  }

  // Whatever is unpacked has such names; without a NUL in the manifest none of them is empty.
  lemma {:induction false} ReadNames(m: string, data: string, i: nat)
    requires i < |UnpackEntries(m, data).files|
    ensures var name := UnpackEntries(m, data).files[i].name;
            Readable(name) && ('\0' !in m ==> name != "")
    decreases |m|
  {
    hide Fields, LineEnd, Atoi, CString, Readable;
    var k := LineEnd(m, ';');
    var n := Atoi(Fields(m[..k], ' ')[1]);
    if i == 0 {
      FirstField(m, k);
    } else {
      ReadNames(m[k + 1..], data[n..], i - 1);
    }
  }

  lemma {:induction false} NoNul(files: seq<File>)
    requires forall i :: 0 <= i < |files| ==> '\0' !in files[i].name
    ensures '\0' !in Manifest(files)
  {
    if files != [] {
      NoNul(files[1..]);
      DigitsAreNot(Decimal(|files[0].content|), '\0');
    }
  }

  // What the unpacker takes for the manifest lies within the manifest, but for digits of its length.
  lemma TakenForManifest(files: seq<File>, h: nat) returns (pre: string)
    requires var p := Package(files); h <= UNPACK_MEM_MAXLEN && 8 + h <= |p| && h == Atoi(p[4..8])
    ensures AllDigits(pre) && h <= |pre + Manifest(files)| && Package(files)[8..8 + h] == (pre + Manifest(files))[..h]
  {
    hide Manifest, Contents, Package, Atoi, Decimal, Padded;
    var p, m := Package(files), Manifest(files);
    if |m| < 10000 {
      PackageParts(files);
      pre := "";
      assert "" + m == m && m[..h] == m;
    } else {
      var d := Decimal(|m|);
      DecimalLength(|m|);
      PaddedDone(d);
      PackageIs(files);
      pre := d[4..];
      assert p[8..] == (pre + m) + Contents(files);
      assert p[8..8 + h] == (pre + m)[..h];
    }
  }

  lemma TakenHasNoNul(files: seq<File>, h: nat)
    requires forall i :: 0 <= i < |files| ==> '\0' !in files[i].name
    requires var p := Package(files); h <= UNPACK_MEM_MAXLEN && 8 + h <= |p| && h == Atoi(p[4..8])
    ensures '\0' !in Package(files)[8..8 + h]
  {
    hide Manifest, Package, Atoi;
    var pre := TakenForManifest(files, h);
    NoNul(files);
    DigitsAreNot(pre, '\0');
  }

  // So exactly the packages with proper names and a manifest that is not too long give back what was packed.
  lemma PackRoundTripIff(files: seq<File>)
    ensures Unpack(Package(files)) == Unpacked(true, files)
       <==> (forall i :: 0 <= i < |files| ==> Named(files[i])) && |Manifest(files)| <= UNPACK_MEM_MAXLEN
  {
    hide Manifest, Package, Unpack, Named;
    if Unpack(Package(files)) == Unpacked(true, files) {
      UnpackedNames(files);
      if |Manifest(files)| > UNPACK_MEM_MAXLEN {
        LongManifestFails(files);
      }
    } else if (forall i :: 0 <= i < |files| ==> Named(files[i])) && |Manifest(files)| <= UNPACK_MEM_MAXLEN {
      PackRoundTrip(files);
    }
  }

  lemma UnpackedNames(files: seq<File>)
    requires Unpack(Package(files)) == Unpacked(true, files)
    ensures forall i :: 0 <= i < |files| ==> Named(files[i])
  {
    hide Manifest, Package, UnpackEntries, Atoi;
    var p := Package(files);
    var h := Atoi(p[4..8]);
    forall i | 0 <= i < |files| ensures Readable(files[i].name) {
      ReadNames(p[8..8 + h], p[8 + h..], i);
    }
    TakenHasNoNul(files, h);
    forall i | 0 <= i < |files| ensures Named(files[i]) {
      ReadNames(p[8..8 + h], p[8 + h..], i);
    }
  }

  // Between any two blanks there is the end of a line.
  ghost predicate Spaced(m: string) {
    forall i, j :: 0 <= i < j < |m| && m[i] == ' ' && m[j] == ' ' ==> exists k :: i < k < j && m[k] == ';'
  }

  function Blanks(s: string): nat {
    if s == "" then 0 else Blanks(s[..|s| - 1]) + if s[|s| - 1] == ' ' then 1 else 0
  }

  lemma {:induction false} FieldsFew(s: string)
    ensures |Fields(s, ' ')| <= Blanks(s) + if s == "" || s[|s| - 1] == ' ' then 0 else 1
  {
    if s != "" {
      var init, c := s[..|s| - 1], s[|s| - 1];
      assert s == init + [c];
      FieldsFew(init);
      FieldsNext(init, c, ' ');
    }
  }

  lemma {:induction false} BlanksFew(s: string)
    requires forall i, j :: 0 <= i < j < |s| ==> !(s[i] == ' ' && s[j] == ' ')
    ensures Blanks(s) <= 1 && (' ' !in s ==> Blanks(s) == 0)
  {
    if s != "" {
      var init := s[..|s| - 1];
      BlanksFew(init);
      if s[|s| - 1] == ' ' {
        assert ' ' !in init;
      }
    }
  }

  lemma {:induction false} SpacedFits(m: string)
    requires Spaced(m)
    ensures FieldsFit(m)
    decreases |m|
  {
    hide Fields, LineEnd;
    var k := LineEnd(m, ';');
    var line := m[..k];
    BlanksFew(line);
    FieldsFew(line);
    if k < |m| {
      SpacedEnd(m, k + 1);
      SpacedFits(m[k + 1..]);
    }
  }

  lemma SpacedEnd(m: string, a: nat)
    requires Spaced(m) && a <= |m|
    ensures Spaced(m[a..])
  {
    var t := m[a..];
    forall i, j | 0 <= i < j < |t| && t[i] == ' ' && t[j] == ' ' ensures exists k :: i < k < j && t[k] == ';' {
      assert m[a + i] == ' ' && m[a + j] == ' ';
      var k :| a + i < k < a + j && m[k] == ';';
      assert t[k - a] == ';';
    }
  }

  lemma SpacedStart(m: string, h: nat)
    requires Spaced(m) && h <= |m|
    ensures Spaced(m[..h])
  {
    var t := m[..h];
    forall i, j | 0 <= i < j < |t| && t[i] == ' ' && t[j] == ' ' ensures exists k :: i < k < j && t[k] == ';' {
      assert m[i] == ' ' && m[j] == ' ';
      var k :| i < k < j && m[k] == ';';
      assert t[k] == ';';
    }
  }

  lemma SpacedJoin(a: string, b: string)
    requires Spaced(a) && Spaced(b) && (' ' !in a || a[|a| - 1] == ';')
    ensures Spaced(a + b)
  {
    var t := a + b;
    forall i, j | 0 <= i < j < |t| && t[i] == ' ' && t[j] == ' ' ensures exists k :: i < k < j && t[k] == ';' {
      if j < |a| {
        var k :| i < k < j && a[k] == ';';
        assert t[k] == ';';
      } else if i >= |a| {
        var k :| i - |a| < k < j - |a| && b[k] == ';';
        assert t[|a| + k] == ';';
      } else {
        assert a[i] == ' ';
        assert t[|a| - 1] == ';';
      }
    }
  }

  lemma SpacedLine(f: File)
    requires ' ' !in f.name
    ensures Spaced(Line(f)) && Line(f)[|Line(f)| - 1] == ';'
  {
    hide Decimal;
    var d := Decimal(|f.content|);
    DigitsAreNot(d, ' ');
    var t := Line(f);
    forall i | 0 <= i < |t| && i != |f.name| ensures t[i] != ' ' {
      if i < |f.name| {
        assert t[i] == f.name[i];
      } else if i < |t| - 1 {
        assert t[i] == d[i - |f.name| - 1];
      }
    }
  }

  lemma {:induction false} SpacedManifest(files: seq<File>)
    requires forall i :: 0 <= i < |files| ==> ' ' !in files[i].name
    ensures Spaced(Manifest(files))
  {
    if files != [] {
      hide Line;
      SpacedManifest(files[1..]);
      SpacedLine(files[0]);
      SpacedJoin(Line(files[0]), Manifest(files[1..]));
    }
  }

  lemma DigitsNotNegative(s: string)
    requires AllDigits(s)
    ensures Atoi(s) >= 0
  {}

  lemma HeaderDigits(files: seq<File>)
    ensures var p := Package(files); |p| >= 8 && p[..4] == "wwcx" && Atoi(p[4..8]) >= 0
  {
    hide Manifest, Contents, Decimal, Padded, Atoi;
    var p, d := Package(files), Decimal(|Manifest(files)|);
    PaddedReads(d);
    PackageIs(files);
    assert p[4..8] == Padded(d)[..4];
    DigitsNotNegative(p[4..8]);
  }

  // A package of files whose names hold no blank never takes the unpacker past its array of fields.
  lemma PackageInDomain(files: seq<File>)
    requires forall i :: 0 <= i < |files| ==> ' ' !in files[i].name
    ensures InDomain(Package(files))
  {
    hide Manifest, Package, Atoi, FieldsFit, Spaced;
    HeaderDigits(files);
    var p := Package(files);
    var h := Atoi(p[4..8]);
    if h <= UNPACK_MEM_MAXLEN && 8 + h <= |p| {
      var pre := TakenForManifest(files, h);
      DigitsAreNot(pre, ' ');
      SpacedManifest(files);
      NoBlankSpaced(pre);
      SpacedJoin(pre, Manifest(files));
      SpacedStart(pre + Manifest(files), h);
      SpacedFits(p[8..8 + h]);
    }
  }

  lemma NoBlankSpaced(s: string)
    requires ' ' !in s
    ensures Spaced(s)
  {}

  predicate DistinctNames(files: seq<File>) { forall i, j :: 0 <= i < j < |files| ==> files[i].name != files[j].name }

  // The directory is just these files, each with its content.
  ghost predicate Holds(dir: map<string, string>, files: seq<File>) {
    && |dir| == |files|
    && forall i :: 0 <= i < |files| ==> files[i].name in dir && dir[files[i].name] == files[i].content
  }

  // The last file of a name is the one that stays.
  lemma {:induction false} SavedLast(dir: map<string, string>, files: seq<File>, i: nat)
    requires i < |files| && forall j :: i < j < |files| ==> files[j].name != files[i].name
    ensures files[i].name in Saved(dir, files) && Saved(dir, files)[files[i].name] == files[i].content
  {
    if i < |files| - 1 {
      SavedLast(dir, files[..|files| - 1], i);
    }
  }

  lemma {:induction false} SavedNames(files: seq<File>, name: string)
    ensures name in Saved(map[], files) <==> exists i :: 0 <= i < |files| && files[i].name == name
  {
    if files != [] {
      SavedNames(files[..|files| - 1], name);
    }
  }

  lemma {:induction false} SavedSize(files: seq<File>)
    ensures |Saved(map[], files)| <= |files|
    ensures |Saved(map[], files)| == |files| <==> DistinctNames(files)
  {
    if files != [] {
      var init, f := files[..|files| - 1], files[|files| - 1];
      var d := Saved(map[], init);
      SavedSize(init);
      SavedNames(init, f.name);
      assert d[f.name := f.content].Keys == d.Keys + {f.name};
    }
  }

  // A fresh directory holds the files that were written exactly if no two have one name.
  lemma SavedIff(files: seq<File>)
    ensures Holds(Saved(map[], files), files) <==> DistinctNames(files)
  {
    hide Saved;
    SavedSize(files);
    if DistinctNames(files) {
      forall i | 0 <= i < |files|
        ensures files[i].name in Saved(map[], files) && Saved(map[], files)[files[i].name] == files[i].content
      {
        SavedLast(map[], files, i);
      }
    }
  }

  // The script and the unpacker together, for all names that the shell keeps in one piece, into a fresh directory.
  method PackAndInstall(dirs: seq<seq<File>>) returns (ok: bool, written: seq<File>, dir: map<string, string>)
    requires ShellWords(Flat(dirs))
    ensures (ok && written == Flat(dirs))
       <==> (forall i :: 0 <= i < |Flat(dirs)| ==> Named(Flat(dirs)[i])) && |Manifest(Flat(dirs))| <= UNPACK_MEM_MAXLEN
    ensures ok && written == Flat(dirs) ==> (Holds(dir, Flat(dirs)) <==> DistinctNames(Flat(dirs)))
  {
    hide Named, Manifest, Package, Unpack, InDomain, Holds, Saved, DistinctNames;
    var package := PackGenerate(dirs);
    PackageInDomain(Flat(dirs));
    ok, written, dir := InstallUnpackFile(package, map[]);
    PackRoundTripIff(Flat(dirs));
    SavedIff(Flat(dirs));
  }
}
