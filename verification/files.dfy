/** The file a class's schema is written to: the class name without its
    leading namespace separators, with every remaining separator turned into a
    dot, and `.json` appended. Creating the directory and writing the file are
    outside the model. */
module SchemaFiles {
  const Separator: char := '\\'
  const Extension: string := ".json"

  /** The number of separators `name` starts with. */
  function LeadingSeparators(name: string): (n: nat)
    ensures n <= |name|
    ensures forall i :: 0 <= i < n ==> name[i] == Separator
    ensures n < |name| ==> name[n] != Separator
  {
    if name != [] && name[0] == Separator then 1 + LeadingSeparators(name[1..]) else 0
  }

  /** PHP `ltrim($name, '\\')`: every leading separator removed. */
  function TrimSeparators(name: string): (r: string)
    ensures exists n :: 0 <= n <= |name| && r == name[n..] && forall i :: 0 <= i < n ==> name[i] == Separator
    ensures r != [] ==> r[0] != Separator
  {
    name[LeadingSeparators(name)..]
  }

  /** PHP `str_replace('\\', '.', $s)`. */
  function SeparatorsToDots(s: string): (r: string)
    ensures |r| == |s|
    ensures forall i :: 0 <= i < |s| ==> r[i] == if s[i] == Separator then '.' else s[i]
    ensures Separator !in r
  {
    var r := seq(|s|, i requires 0 <= i < |s| => if s[i] == Separator then '.' else s[i]);
    assert forall i :: 0 <= i < |r| ==> r[i] != Separator;
    r
  }

  /** The file name for a class's schema. Nothing is rejected: any character
      other than the separator, `/` and `.` included, is kept as it is. */
  function SchemaFileName(className: string): (r: string)
    ensures r == SeparatorsToDots(TrimSeparators(className)) + Extension
    ensures Separator !in r
    ensures |r| >= |Extension| && r[|r| - |Extension|..] == Extension
    ensures var body := TrimSeparators(className);
      && |r| == |body| + |Extension|
      && forall i :: 0 <= i < |body| && body[i] != Separator ==> r[i] == body[i]
  {
    var dotted := SeparatorsToDots(TrimSeparators(className));
    assert Separator !in Extension;
    assert (dotted + Extension)[|dotted|..] == Extension;
    dotted + Extension
  }

  /** The reverse mapping: drop `.json` and turn every dot back into a separator. */
  function ClassNameOf(fileName: string): (r: string)
    requires |fileName| >= |Extension|
    ensures |r| == |fileName| - |Extension|
    ensures forall i :: 0 <= i < |r| ==> r[i] == if fileName[i] == '.' then Separator else fileName[i]
  {
    var body := fileName[..|fileName| - |Extension|];
    seq(|body|, i requires 0 <= i < |body| => if body[i] == '.' then Separator else body[i])
  }

  /** A class name that does not start with a separator is not trimmed. */
  lemma UntrimmedName(className: string)
    requires className == [] || className[0] != Separator
    ensures SchemaFileName(className) == SeparatorsToDots(className) + Extension
  {
    assert LeadingSeparators(className) == 0;
    assert className[0..] == className;
  }

  /** A class name without a leading separator and without dots is recovered
      from its file name. */
  lemma FileNameRoundTrip(className: string)
    requires className == [] || className[0] != Separator
    requires '.' !in className
    ensures ClassNameOf(SchemaFileName(className)) == className
  {
    UntrimmedName(className);
    var f := SchemaFileName(className);
    var r := ClassNameOf(f);
    forall i | 0 <= i < |className| ensures r[i] == className[i] {
      assert f[i] == SeparatorsToDots(className)[i];
      assert className[i] != '.';
    }
  }

  /** Leading separators do not change the file name. */
  lemma {:induction false} LeadingSeparatorsIgnored(className: string)
    ensures SchemaFileName([Separator] + className) == SchemaFileName(className)
  {
    var name := [Separator] + className;
    assert name[1..] == className;
    assert LeadingSeparators(name) == 1 + LeadingSeparators(className);
    assert name[LeadingSeparators(name)..] == className[LeadingSeparators(className)..];
  }

  /** Replacing separators works piece by piece. */
  lemma DotsConcat(a: string, b: string)
    ensures SeparatorsToDots(a + b) == SeparatorsToDots(a) + SeparatorsToDots(b)
  {
  }

  /** A string without separators is kept as it is. */
  lemma DotsOfPlain(s: string)
    requires Separator !in s
    ensures SeparatorsToDots(s) == s
  {
  }

  /** Two class names that differ only in separator versus dot share a file. */
  lemma SeparatorAndDotCollide()
    ensures SchemaFileName("A\\B") == SchemaFileName("A.B")
  {
    UntrimmedName("A\\B");
    UntrimmedName("A.B");
    assert "A\\B" == "A" + [Separator] + "B";
    assert "A.B" == "A" + "." + "B";
    DotsConcat("A" + [Separator], "B");
    DotsConcat("A", [Separator]);
    DotsConcat("A" + ".", "B");
    DotsConcat("A", ".");
  }

  /** `App\Dto\User` is written to `App.Dto.User.json`. */
  lemma NamespacedClassFile()
    ensures SchemaFileName("App\\Dto\\User") == "App.Dto.User.json"
  {
    var sep := [Separator];
    assert SeparatorsToDots(sep) == ".";
    var p1 := "App" + sep;
    DotsConcat("App", sep);
    DotsOfPlain("App");
    assert SeparatorsToDots(p1) == "App.";
    var p2 := p1 + "Dto";
    DotsConcat(p1, "Dto");
    DotsOfPlain("Dto");
    assert SeparatorsToDots(p2) == "App.Dto";
    var p3 := p2 + sep;
    DotsConcat(p2, sep);
    assert SeparatorsToDots(p3) == "App.Dto.";
    var p4 := p3 + "User";
    DotsConcat(p3, "User");
    DotsOfPlain("User");
    assert SeparatorsToDots(p4) == "App.Dto.User";
    assert p4 == "App\\Dto\\User";
    UntrimmedName(p4);
    assert "App.Dto.User" + Extension == "App.Dto.User.json";
  }

  /** A leading separator does not change the file. */
  lemma FullyQualifiedClassFile()
    ensures SchemaFileName("\\App\\Dto\\User") == "App.Dto.User.json"
  {
    assert "\\App\\Dto\\User" == [Separator] + "App\\Dto\\User";
    LeadingSeparatorsIgnored("App\\Dto\\User");
    NamespacedClassFile();
  }

  /** A name with `/` and `..` passes through unchanged: nothing is rejected. */
  lemma PathLikeNameKept()
    ensures SchemaFileName("App/../Secret") == "App/../Secret.json"
  {
    UntrimmedName("App/../Secret");
    DotsOfPlain("App/../Secret");
  }
}
