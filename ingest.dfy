/**
 * Ingestion of one text file (scripts/insert_text.py): the file name gives the
 * author and the title, the text is cut into paragraph chunks, and a document
 * row plus its numbered chunk rows are written in one transaction.
 *
 * Characters are ASCII; Python's title-casing and whitespace rules are
 * written out for that range.
 */
module Ingest {

  // ---------------------------------------------------------------------------
  // Characters
  // ---------------------------------------------------------------------------

  predicate IsUpper(c: char) { 'A' <= c <= 'Z' }
  predicate IsLower(c: char) { 'a' <= c <= 'z' }

  /** A cased character in Python's sense, for ASCII: a letter. */
  predicate IsCased(c: char) { IsUpper(c) || IsLower(c) }

  /** Python's str.isspace on ASCII: tab, line feed, vertical tab, form feed,
      carriage return, the four separators 0x1c-0x1f, and the space. */
  predicate IsSpace(c: char)
  {
    var k := c as int;
    k == 32 || 9 <= k <= 13 || 28 <= k <= 31
  }

  function Upper(c: char): (u: char)
    ensures IsLower(c) ==> u as int == c as int - 32
    ensures !IsLower(c) ==> u == c
    ensures IsCased(u) == IsCased(c) && !IsLower(u)
  {
    if IsLower(c) then (c as int - 32) as char else c
  }

  function Lower(c: char): (l: char)
    ensures IsUpper(c) ==> l as int == c as int + 32
    ensures !IsUpper(c) ==> l == c
    ensures IsCased(l) == IsCased(c) && !IsUpper(l)
  {
    if IsUpper(c) then (c as int + 32) as char else c
  }

  // ---------------------------------------------------------------------------
  // str.title()
  // ---------------------------------------------------------------------------

  /** Python's s.title() on ASCII, as CPython computes it: walking left to
      right, a character is lower-cased when the character before it is cased,
      and upper-cased otherwise. Only letter case changes. */
  function Title(s: string): (r: string)
    ensures |r| == |s|
    ensures forall i {:trigger r[i]} :: 0 <= i < |s| ==>
      Lower(r[i]) == Lower(s[i]) && IsCased(r[i]) == IsCased(s[i]) && (!IsCased(s[i]) ==> r[i] == s[i])
  {
    CaseFactsAll(s);
    seq(|s|, i requires 0 <= i < |s| => if i > 0 && IsCased(s[i - 1]) then Lower(s[i]) else Upper(s[i]))
  }

  lemma CaseFactsAll(s: string)
    ensures forall i :: 0 <= i < |s| ==>
      && Lower(Upper(s[i])) == Lower(s[i]) && Lower(Lower(s[i])) == Lower(s[i])
      && IsCased(Upper(s[i])) == IsCased(s[i]) && IsCased(Lower(s[i])) == IsCased(s[i])
  {
  }

  /** Each run of letters comes out starting with a capital and going on in
      lower case. */
  lemma TitleCapitalisesWords(s: string)
    ensures forall i :: 0 <= i < |s| && IsCased(s[i]) ==>
      && (IsUpper(Title(s)[i]) <==> i == 0 || !IsCased(s[i - 1]))
      && (IsLower(Title(s)[i]) <==> i > 0 && IsCased(s[i - 1]))
  {
    var t := Title(s);
    forall i | 0 <= i < |s| && IsCased(s[i])
      ensures (IsUpper(t[i]) <==> i == 0 || !IsCased(s[i - 1])) && (IsLower(t[i]) <==> i > 0 && IsCased(s[i - 1]))
    {
      if i > 0 && IsCased(s[i - 1]) {
        assert t[i] == Lower(s[i]);
      } else {
        assert t[i] == Upper(s[i]);
      }
    }
  }

  /** Title-casing a title-cased string changes nothing. */
  lemma TitleIdempotent(s: string)
    ensures Title(Title(s)) == Title(s)
  {
    var t := Title(s);
    forall i | 0 <= i < |s|
      ensures Title(t)[i] == t[i]
    {
      if i > 0 {
        assert IsCased(t[i - 1]) == IsCased(s[i - 1]);
      }
    }
  }

  // ---------------------------------------------------------------------------
  // Paths: os.path.basename, os.path.splitext, str.replace, str.find
  // ---------------------------------------------------------------------------

  /** Python's str.rfind for one character: the last index of c, or -1. */
  function RFind(s: string, c: char): (r: int)
    ensures -1 <= r < |s|
    ensures r >= 0 ==> s[r] == c
    ensures forall j :: r < j < |s| ==> s[j] != c
    decreases |s|
  {
    if s == [] then -1
    else if s[|s| - 1] == c then |s| - 1
    else RFind(s[..|s| - 1], c)
  }

  /** Python's str.find for one character: the first index of c, or -1. */
  function Find(s: string, c: char): (r: int)
    ensures -1 <= r < |s|
    ensures r >= 0 ==> s[r] == c
    ensures forall j :: 0 <= j < |s| && (r < 0 || j < r) ==> s[j] != c
    decreases |s|
  {
    if s == [] then -1
    else if s[0] == c then 0
    else var k := Find(s[1..], c); if k < 0 then -1 else k + 1
  }

  /** os.path.basename: what follows the last '/'. */
  function Basename(p: string): (r: string)
    ensures '/' !in r
    ensures |r| <= |p| && r == p[|p| - |r|..]
    ensures |r| < |p| ==> p[|p| - |r| - 1] == '/'
  {
    p[RFind(p, '/') + 1..]
  }

  /** The root half of os.path.splitext(p): p without its last extension. The
      extension starts at the last '.', provided that dot lies after the last
      '/' and something other than dots precedes it in the final component
      (so ".bashrc" has no extension). */
  function SplitExtRoot(p: string): (r: string)
    ensures |r| <= |p| && r == p[..|r|]
  {
    var sepIndex := RFind(p, '/');
    var dotIndex := RFind(p, '.');
    if dotIndex > sepIndex && exists j :: sepIndex + 1 <= j < dotIndex && p[j] != '.' then
      p[..dotIndex]
    else
      p
  }

  /** p has an extension starting at index d: a '.' followed by neither '.'
      nor '/', preceded in the last component by something other than dots. */
  predicate ExtensionAt(p: string, d: int)
  {
    && 0 <= d < |p| && p[d] == '.'
    && (forall k :: d < k < |p| ==> p[k] != '.' && p[k] != '/')
    && (exists j :: 0 <= j < d && p[j] != '.' && p[j] != '/' && forall k :: j < k < d ==> p[k] != '/')
  }

  /** An extension, when p has one, is what splitext removes. */
  lemma SplitExtRootFindsExtension(p: string, d: int)
    requires ExtensionAt(p, d)
    ensures SplitExtRoot(p) == p[..d]
  {
    var j :| 0 <= j < d && p[j] != '.' && p[j] != '/' && forall k :: j < k < d ==> p[k] != '/';
    RFindAt(p, '.', d);
    assert RFind(p, '/') < j;
  }

  /** What splitext removes, when it removes anything, is one extension: a
      '.' followed by neither '.' nor '/', preceded in the last component by
      something other than dots. */
  lemma SplitExtRootRemovesExtension(p: string)
    ensures var r := SplitExtRoot(p);
      r != p ==>
        && p[|r|] == '.'
        && (forall j :: |r| < j < |p| ==> p[j] != '.' && p[j] != '/')
        && (exists j :: 0 <= j < |r| && p[j] != '.' && p[j] != '/' && forall k :: j < k < |r| ==> p[k] != '/')
  {
  }

  /** s.replace("-", " "). */
  function SpaceForDash(s: string): (r: string)
    ensures |r| == |s| && '-' !in r
    ensures forall i :: 0 <= i < |s| && s[i] == '-' ==> r[i] == ' '
    ensures forall i :: 0 <= i < |s| && s[i] != '-' ==> r[i] == s[i]
  {
    seq(|s|, i requires 0 <= i < |s| => if s[i] == '-' then ' ' else s[i])
  }

  /** The author used when the file name has no '_'. */
  const DefaultAuthor := "Inconnu"

  /** The (author, title) pair named by a file stem: the stem is split at
      its first '_'; both halves have '-' replaced by ' ' and are title-cased.
      Without '_' the author is DefaultAuthor and the whole stem is the title. */
  function ParseStem(name: string): (r: (string, string))
    ensures '-' !in r.0 && '-' !in r.1
  {
    var i := Find(name, '_');
    if i >= 0 then
      (Title(SpaceForDash(name[..i])), Title(SpaceForDash(name[i + 1..])))
    else
      (DefaultAuthor, Title(SpaceForDash(name)))
  }

  /** parse_filename: (author, title) from a path, read off the stem, i.e.
      the base name without its last extension. */
  function ParseFilename(filename: string): (r: (string, string))
    ensures '-' !in r.0 && '-' !in r.1
  {
    ParseStem(SplitExtRoot(Basename(filename)))
  }

  /** With a '_' in the stem, the author comes from the text before the first
      '_' and the title from everything after it, further '_' included. */
  lemma ParseWithUnderscore(stem: string, author: string, title: string)
    requires stem == author + "_" + title
    requires '_' !in author
    ensures ParseStem(stem) == (Title(SpaceForDash(author)), Title(SpaceForDash(title)))
  {
    FindAt(stem, '_', |author|);
    assert stem[..|author|] == author;
    assert stem[|author| + 1..] == title;
  }

  /** Without a '_' in the stem, the author is the fixed default and the
      title is the whole stem. */
  lemma ParseWithoutUnderscore(stem: string)
    requires '_' !in stem
    ensures ParseStem(stem) == (DefaultAuthor, Title(SpaceForDash(stem)))
  {
    assert forall j :: 0 <= j < |stem| ==> stem[j] != '_';
  }

  /** find returns the index of the first occurrence. */
  lemma FindAt(s: string, c: char, i: int)
    requires 0 <= i < |s| && s[i] == c && forall j :: 0 <= j < i ==> s[j] != c
    ensures Find(s, c) == i
  {
  }

  /** Only the last path component matters. */
  lemma DirectoryIrrelevant(dir: string, base: string)
    requires '/' !in base
    ensures Basename(dir + "/" + base) == base
    ensures ParseFilename(dir + "/" + base) == ParseFilename(base)
  {
    BasenameAfterDir(dir, base);
    BasenameOfPlainName(base);
    assert SplitExtRoot(Basename(dir + "/" + base)) == SplitExtRoot(Basename(base));
  }

  lemma BasenameAfterDir(dir: string, base: string)
    requires '/' !in base
    ensures Basename(dir + "/" + base) == base
  {
    var p := dir + "/" + base;
    assert p[|dir|] == '/';
    assert forall j :: |dir| < j < |p| ==> p[j] == base[j - |dir| - 1];
    RFindAt(p, '/', |dir|);
    assert p[|dir| + 1..] == base;
  }

  lemma BasenameOfPlainName(base: string)
    requires '/' !in base
    ensures Basename(base) == base
  {
  }

  /** rfind returns the index of the last occurrence. */
  lemma RFindAt(s: string, c: char, i: int)
    requires 0 <= i < |s| && s[i] == c && forall j :: i < j < |s| ==> s[j] != c
    ensures RFind(s, c) == i
  {
  }

  /** A name with no '/' that does not start with '.' loses exactly what
      follows its last '.'. */
  lemma SplitExtRootAt(p: string, i: nat)
    requires 0 < i < |p| && p[i] == '.' && p[0] != '.' && '/' !in p
    requires forall j :: i < j < |p| ==> p[j] != '.'
    ensures SplitExtRoot(p) == p[..i]
  {
    RFindAt(p, '.', i);
  }

  /** Title-casing works word by word: a space ends one word and starts the
      next. */
  lemma TitleAcrossSpace(a: string, b: string)
    ensures Title(a + " " + b) == Title(a) + " " + Title(b)
  {
    var s := a + " " + b;
    var t := Title(a) + " " + Title(b);
    forall i | 0 <= i < |s|
      ensures Title(s)[i] == t[i]
    {
      if i < |a| {
        assert s[i] == a[i];
        if i > 0 {
          assert s[i - 1] == a[i - 1];
        }
      } else if i > |a| {
        var j := i - |a| - 1;
        assert s[i] == b[j];
        if j > 0 {
          assert s[i - 1] == b[j - 1];
        } else {
          assert s[i - 1] == ' ';
        }
      }
    }
  }

  /** A lower-case word comes out with a capital first letter. */
  lemma TitleLowerWord(w: string)
    requires |w| > 0 && forall j :: 0 <= j < |w| ==> IsLower(w[j])
    ensures Title(w) == [Upper(w[0])] + w[1..]
  {
    var t := [Upper(w[0])] + w[1..];
    forall i | 0 <= i < |w|
      ensures Title(w)[i] == t[i]
    {
      if i > 0 {
        assert t[i] == w[i];
      }
    }
  }

  /** A non-empty word of lower-case ASCII letters. */
  predicate LowerWord(w: string)
  {
    |w| > 0 && forall j :: 0 <= j < |w| ==> IsLower(w[j])
  }

  /** w with its first letter made upper case. */
  function Capitalised(w: string): string
    requires |w| > 0
  {
    [Upper(w[0])] + w[1..]
  }

  /** Dashes between two dash-free parts become a space. */
  lemma SpaceForDashJoin(a: string, b: string)
    requires '-' !in a && '-' !in b
    ensures SpaceForDash(a + "-" + b) == a + " " + b
  {
    var s := a + "-" + b;
    forall i | 0 <= i < |s|
      ensures SpaceForDash(s)[i] == (a + " " + b)[i]
    {
      if i < |a| {
        assert s[i] == a[i];
      } else if i > |a| {
        assert s[i] == b[i - |a| - 1];
      }
    }
  }

  /** The title-cased form of two lower-case words joined by '-'. */
  lemma TitleOfDashedPair(a: string, b: string)
    requires LowerWord(a) && LowerWord(b)
    ensures Title(SpaceForDash(a + "-" + b)) == Capitalised(a) + " " + Capitalised(b)
  {
    SpaceForDashJoin(a, b);
    TitleAcrossSpace(a, b);
    TitleLowerWord(a);
    TitleLowerWord(b);
  }

  /** The stem of dir/stem.txt, for a stem made of letters, '-' and '_'. */
  lemma StemOfTxt(dir: string, stem: string)
    requires |stem| > 0 && forall j :: 0 <= j < |stem| ==> IsLower(stem[j]) || stem[j] == '-' || stem[j] == '_'
    ensures SplitExtRoot(Basename(dir + "/" + (stem + ".txt"))) == stem
  {
    var f := stem + ".txt";
    assert forall j :: 0 <= j < |f| ==> f[j] != '/';
    BasenameAfterDir(dir, f);
    assert f[|stem|] == '.';
    assert forall j :: |stem| < j < |f| ==> f[j] != '.';
    SplitExtRootAt(f, |stem|);
    assert f[..|stem|] == stem;
  }

  /** The shape of "victor-hugo_les-miserables.txt", in any directory: the
      stem splits at '_', dashes become spaces, and each word is capitalised,
      giving ("Victor Hugo", "Les Miserables") for that name. */
  lemma AuthorTitleExample(dir: string, a1: string, a2: string, t1: string, t2: string)
    requires LowerWord(a1) && LowerWord(a2) && LowerWord(t1) && LowerWord(t2)
    ensures ParseFilename(dir + "/" + (a1 + "-" + a2 + "_" + t1 + "-" + t2 + ".txt"))
         == (Capitalised(a1) + " " + Capitalised(a2), Capitalised(t1) + " " + Capitalised(t2))
  {
    var author := a1 + "-" + a2;
    var title := t1 + "-" + t2;
    var stem := author + "_" + title;
    assert a1 + "-" + a2 + "_" + t1 + "-" + t2 + ".txt" == stem + ".txt";
    assert forall j :: 0 <= j < |author| ==> author[j] != '_';
    assert forall j :: 0 <= j < |stem| ==> IsLower(stem[j]) || stem[j] == '-' || stem[j] == '_';
    StemOfTxt(dir, stem);
    ParseWithUnderscore(stem, author, title);
    TitleOfDashedPair(a1, a2);
    TitleOfDashedPair(t1, t2);
  }

  /** The shape of "notes.txt", in any directory: the default author, and
      the stem capitalised as the title. */
  lemma DefaultAuthorExample(dir: string, w: string)
    requires LowerWord(w)
    ensures ParseFilename(dir + "/" + (w + ".txt")) == ("Inconnu", Capitalised(w))
  {
    StemOfTxt(dir, w);
    assert forall j :: 0 <= j < |w| ==> w[j] != '_' && w[j] != '-';
    ParseWithoutUnderscore(w);
    assert SpaceForDash(w) == w;
    TitleLowerWord(w);
  }

  // ---------------------------------------------------------------------------
  // text.split("\n\n")
  // ---------------------------------------------------------------------------

  /** The paragraph separator "\n\n" starts at index i of s. */
  predicate SepAt(s: string, i: int)
  {
    0 <= i && i + 1 < |s| && s[i] == '\n' && s[i + 1] == '\n'
  }

  predicate NoSep(s: string)
  {
    forall i :: 0 <= i < |s| ==> !SepAt(s, i)
  }

  /** Python's s.find("\n\n"): the first index where the separator starts, or -1. */
  function FindSep(s: string): (r: int)
    ensures -1 <= r < |s|
    ensures r >= 0 ==> SepAt(s, r) && forall j :: 0 <= j < r ==> !SepAt(s, j)
    ensures r < 0 ==> NoSep(s)
    decreases |s|
  {
    if |s| < 2 then -1
    else if SepAt(s, 0) then 0
    else
      var k := FindSep(s[1..]);
      assert forall j {:trigger SepAt(s, j)} :: 1 <= j ==> (SepAt(s, j) <==> SepAt(s[1..], j - 1));
      if k < 0 then -1 else k + 1
  }

  /** Python's s.split("\n\n"): the pieces between non-overlapping separators,
      found left to right. */
  function Split(s: string): (r: seq<string>)
    ensures |r| >= 1
    ensures forall k :: 0 <= k < |r| ==> NoSep(r[k])
    ensures forall k :: 0 <= k < |r| - 1 ==> r[k] == [] || r[k][|r[k]| - 1] != '\n'
    decreases |s|
  {
    var i := FindSep(s);
    if i < 0 then [s]
    else
      assert NoSep(s[..i]) by {
        forall j ensures !SepAt(s[..i], j) {
          if SepAt(s[..i], j) { assert SepAt(s, j); }
        }
      }
      assert i > 0 ==> s[..i][i - 1] != '\n' by {
        if i > 0 { assert !SepAt(s, i - 1); }
      }
      [s[..i]] + Split(s[i + 2..])
  }

  /** "\n\n".join(ps). */
  function Join(ps: seq<string>): string
    decreases |ps|
  {
    if |ps| == 0 then ""
    else if |ps| == 1 then ps[0]
    else ps[0] + "\n\n" + Join(ps[1..])
  }

  /** Python's s.count("\n\n"): non-overlapping occurrences, scanned left to right. */
  function CountSep(s: string): nat
    decreases |s|
  {
    if |s| < 2 then 0
    else if SepAt(s, 0) then 1 + CountSep(s[2..])
    else CountSep(s[1..])
  }

  /** Joining the pieces again gives back the text. */
  lemma {:induction false} JoinSplit(s: string)
    ensures Join(Split(s)) == s
    decreases |s|
  {
    var i := FindSep(s);
    if i >= 0 {
      var rest := s[i + 2..];
      JoinSplit(rest);
      assert Split(s) == [s[..i]] + Split(rest);
      assert Join(Split(s)) == s[..i] + "\n\n" + Join(Split(rest));
      assert s == s[..i] + s[i..i + 2] + rest;
    }
  }

  /** There is one piece more than there are separators. */
  lemma {:induction false} SplitCount(s: string)
    ensures |Split(s)| == CountSep(s) + 1
    decreases |s|
  {
    var i := FindSep(s);
    if i < 0 {
      CountWithoutSep(s);
    } else {
      CountSkipsPrefix(s, i);
      SplitCount(s[i + 2..]);
      assert s[i..][2..] == s[i + 2..];
    }
  }

  lemma {:induction false} CountWithoutSep(s: string)
    requires NoSep(s)
    ensures CountSep(s) == 0
    decreases |s|
  {
    if |s| >= 2 {
      assert !SepAt(s, 0);
      assert NoSep(s[1..]) by {
        forall j ensures !SepAt(s[1..], j) {
          if SepAt(s[1..], j) { assert SepAt(s, j + 1); }
        }
      }
      CountWithoutSep(s[1..]);
    }
  }

  lemma {:induction false} CountSkipsPrefix(s: string, i: nat)
    requires i <= |s|
    requires forall j :: 0 <= j < i ==> !SepAt(s, j)
    ensures CountSep(s) == CountSep(s[i..])
    decreases i
  {
    if i > 0 {
      var t := s[1..];
      forall j | 0 <= j < i - 1 ensures !SepAt(t, j) {
        assert !SepAt(s, j + 1);
      }
      CountSkipsPrefix(t, i - 1);
      assert t[i - 1..] == s[i..];
    }
  }

  // ---------------------------------------------------------------------------
  // str.strip() and split_into_chunks
  // ---------------------------------------------------------------------------

  /** The first index at or after i that holds no whitespace, or |s|. */
  function SkipSpace(s: string, i: nat): (r: nat)
    requires i <= |s|
    ensures i <= r <= |s|
    ensures forall k :: i <= k < r ==> IsSpace(s[k])
    ensures r < |s| ==> !IsSpace(s[r])
    decreases |s| - i
  {
    if i < |s| && IsSpace(s[i]) then SkipSpace(s, i + 1) else i
  }

  /** Walking back from j, but not below lo, over whitespace: the index just
      after the last non-whitespace character, or lo. */
  function SkipSpaceBack(s: string, lo: nat, j: nat): (r: nat)
    requires lo <= j <= |s|
    ensures lo <= r <= j
    ensures forall k :: r <= k < j ==> IsSpace(s[k])
    ensures r > lo ==> !IsSpace(s[r - 1])
    decreases j
  {
    if j > lo && IsSpace(s[j - 1]) then SkipSpaceBack(s, lo, j - 1) else j
  }

  /** Where s.strip() starts and ends. */
  function StripStart(s: string): nat
    ensures StripStart(s) <= |s|
  {
    SkipSpace(s, 0)
  }

  function StripEnd(s: string): nat
    ensures StripStart(s) <= StripEnd(s) <= |s|
  {
    SkipSpaceBack(s, StripStart(s), |s|)
  }

  /** s.strip(): the slice of s between its leading and trailing whitespace. */
  function Strip(s: string): (r: string)
    ensures r != [] ==> !IsSpace(r[0]) && !IsSpace(r[|r| - 1])
    ensures r == [] <==> forall i :: 0 <= i < |s| ==> IsSpace(s[i])
    ensures exists a, b ::
      && 0 <= a <= b <= |s| && r == s[a..b]
      && (forall k :: 0 <= k < a ==> IsSpace(s[k]))
      && (forall k :: b <= k < |s| ==> IsSpace(s[k]))
  {
    s[StripStart(s)..StripEnd(s)]
  }

  /** What every chunk looks like: non-empty, no surrounding whitespace, and
      no paragraph separator inside. */
  predicate WellFormedChunk(c: string)
  {
    c != [] && !IsSpace(c[0]) && !IsSpace(c[|c| - 1]) && NoSep(c)
  }

  /** [p.strip() for p in ps if p.strip()] */
  function StrippedNonEmpty(ps: seq<string>): (r: seq<string>)
    ensures |r| <= |ps|
    ensures forall k :: 0 <= k < |r| ==> r[k] != []
    decreases |ps|
  {
    if ps == [] then []
    else
      var rest := StrippedNonEmpty(ps[1..]);
      if Strip(ps[0]) != [] then [Strip(ps[0])] + rest else rest
  }

  /** The comprehension on one piece keeps its stripped form when that is
      non-empty, and drops the piece otherwise. */
  lemma StrippedOne(p: string)
    ensures Strip(p) != [] ==> StrippedNonEmpty([p]) == [Strip(p)]
    ensures Strip(p) == [] ==> StrippedNonEmpty([p]) == []
  {
    assert [p][1..] == [];
  }

  /** The comprehension works piece by piece: on a concatenation of lists it
      is the concatenation of its results, so chunk order follows piece order. */
  lemma {:induction false} StrippedAppend(a: seq<string>, b: seq<string>)
    ensures StrippedNonEmpty(a + b) == StrippedNonEmpty(a) + StrippedNonEmpty(b)
    decreases |a|
  {
    if a != [] {
      assert (a + b)[0] == a[0];
      assert (a + b)[1..] == a[1..] + b;
      StrippedAppend(a[1..], b);
    } else {
      assert a + b == b;
    }
  }

  lemma SliceKeepsNoSep(s: string, a: nat, b: nat)
    requires a <= b <= |s| && NoSep(s)
    ensures NoSep(s[a..b])
  {
    forall j ensures !SepAt(s[a..b], j) {
      if SepAt(s[a..b], j) { assert SepAt(s, a + j); }
    }
  }

  /** split_into_chunks: the stripped, non-empty paragraphs of the text, in order. */
  function SplitIntoChunks(text: string): (r: seq<string>)
    ensures forall k :: 0 <= k < |r| ==> WellFormedChunk(r[k])
  {
    var ps := Split(text);
    StrippedAreWellFormed(ps);
    StrippedNonEmpty(ps)
  }

  lemma {:induction false} StrippedAreWellFormed(ps: seq<string>)
    requires forall k :: 0 <= k < |ps| ==> NoSep(ps[k])
    ensures forall k :: 0 <= k < |StrippedNonEmpty(ps)| ==> WellFormedChunk(StrippedNonEmpty(ps)[k])
    decreases |ps|
  {
    if ps != [] {
      StrippedAreWellFormed(ps[1..]);
      SliceKeepsNoSep(ps[0], StripStart(ps[0]), StripEnd(ps[0]));
    }
  }

  /** Chunks come paragraph by paragraph: the text before the first blank-line
      separator gives its stripped form (when non-empty) as the first chunk,
      and the chunks of the rest follow; a text without separator is one
      paragraph. */
  lemma ChunksStep(text: string)
    ensures FindSep(text) < 0 ==> SplitIntoChunks(text) == StrippedNonEmpty([text])
    ensures FindSep(text) >= 0 ==>
      SplitIntoChunks(text) == StrippedNonEmpty([text[..FindSep(text)]]) + SplitIntoChunks(text[FindSep(text) + 2..])
  {
    var i := FindSep(text);
    if i >= 0 {
      StrippedAppend([text[..i]], Split(text[i + 2..]));
    }
  }

  /** There are never more chunks than separators plus one. */
  lemma ChunkCountBound(text: string)
    ensures |SplitIntoChunks(text)| <= CountSep(text) + 1
  {
    SplitCount(text);
  }

  /** Joining well-formed chunks with blank lines and splitting again gives
      the same chunks, in the same order. */
  lemma {:induction false} ChunksOfJoin(cs: seq<string>)
    requires forall k :: 0 <= k < |cs| ==> WellFormedChunk(cs[k])
    ensures SplitIntoChunks(Join(cs)) == cs
  {
    SplitJoin(cs);
    StrippedOfWellFormed(cs);
  }

  lemma {:induction false} SplitJoin(cs: seq<string>)
    requires forall k :: 0 <= k < |cs| ==> WellFormedChunk(cs[k])
    ensures cs != [] ==> Split(Join(cs)) == cs
    ensures cs == [] ==> Split(Join(cs)) == [""]
    decreases |cs|
  {
    if |cs| == 1 {
      assert FindSep(cs[0]) < 0;
    } else if |cs| > 1 {
      var p, rest := cs[0], Join(cs[1..]);
      var s := p + "\n\n" + rest;
      assert Join(cs) == s;
      assert SepAt(s, |p|);
      forall j | 0 <= j < |p| ensures !SepAt(s, j) {
        if j < |p| - 1 {
          assert !SepAt(p, j);
        } else {
          assert s[j] == p[|p| - 1];
        }
      }
      assert FindSep(s) == |p|;
      assert s[..|p|] == p;
      assert s[|p| + 2..] == rest;
      SplitJoin(cs[1..]);
    }
  }

  lemma {:induction false} StrippedOfWellFormed(cs: seq<string>)
    requires forall k :: 0 <= k < |cs| ==> WellFormedChunk(cs[k])
    ensures StrippedNonEmpty(cs) == cs
    ensures StrippedNonEmpty([""]) == []
    decreases |cs|
  {
    assert Strip("") == "";
    assert [""][1..] == [];
    if cs != [] {
      var c := cs[0];
      assert StripStart(c) == 0;
      assert StripEnd(c) == |c|;
      assert Strip(c) == c;
      StrippedOfWellFormed(cs[1..]);
      assert cs == [c] + cs[1..];
    }
  }

  /** A text yields no chunk exactly when it is all whitespace. */
  lemma {:induction false} NoChunksIffBlank(text: string)
    ensures SplitIntoChunks(text) == [] <==> forall i :: 0 <= i < |text| ==> IsSpace(text[i])
    decreases |text|
  {
    if forall i :: 0 <= i < |text| ==> IsSpace(text[i]) {
      BlankPieces(text);
    } else {
      var p :| 0 <= p < |text| && !IsSpace(text[p]);
      SomeChunk(text, p);
    }
  }

  lemma {:induction false} BlankPieces(text: string)
    requires forall i :: 0 <= i < |text| ==> IsSpace(text[i])
    ensures StrippedNonEmpty(Split(text)) == []
    decreases |text|
  {
    var i := FindSep(text);
    if i >= 0 {
      var rest := text[i + 2..];
      assert forall j :: 0 <= j < |rest| ==> IsSpace(rest[j]) by {
        forall j | 0 <= j < |rest| ensures IsSpace(rest[j]) { assert rest[j] == text[i + 2 + j]; }
      }
      BlankPieces(rest);
      assert forall j :: 0 <= j < i ==> IsSpace(text[..i][j]);
      assert Strip(text[..i]) == [];
    } else {
      assert Strip(text) == [];
    }
  }

  lemma {:induction false} SomeChunk(text: string, p: nat)
    requires p < |text| && !IsSpace(text[p])
    ensures StrippedNonEmpty(Split(text)) != []
    decreases |text|
  {
    var i := FindSep(text);
    if i < 0 {
      assert Strip(text) != [];
    } else if p < i {
      assert text[..i][p] == text[p];
      assert Strip(text[..i]) != [];
    } else {
      assert p != i && p != i + 1;
      var rest := text[i + 2..];
      assert rest[p - i - 2] == text[p];
      SomeChunk(rest, p - i - 2);
      assert Split(text) == [text[..i]] + Split(rest);
    }
  }

  /** The paragraph example: three one-letter paragraphs give three chunks. */
  lemma ChunkExample()
    ensures SplitIntoChunks("A\n\nB\n\nC") == ["A", "B", "C"]
  {
    var cs := ["A", "B", "C"];
    assert Join(cs) == "A\n\nB\n\nC";
    ChunksOfJoin(cs);
  }

  // ---------------------------------------------------------------------------
  // insert_document_and_chunks
  // ---------------------------------------------------------------------------

  /** A row of the documents table. */
  datatype Document = Document(id: nat, titre: string, auteur: string, texte: string)

  /** A row of the chunks table: its document, its position (from 1), its text. */
  datatype ChunkRow = ChunkRow(documentId: nat, numero: nat, texte: string)

  function DocumentIds(ds: seq<Document>): set<nat>
  {
    set d | d in ds :: d.id
  }

  /** The chunk rows of one document: one per chunk, in order, numbered
      from 1, all under documentId. */
  function NumberedRows(documentId: nat, cs: seq<string>): (r: seq<ChunkRow>)
    ensures |r| == |cs|
    ensures forall k :: 0 <= k < |r| ==> r[k].documentId == documentId && r[k].numero == k + 1 && r[k].texte == cs[k]
  {
    seq(|cs|, k requires 0 <= k < |cs| => ChunkRow(documentId, k + 1, cs[k]))
  }

  /** The enumerate loop of insert_document_and_chunks. */
  method NumberChunks(documentId: nat, cs: seq<string>) returns (rows: seq<ChunkRow>)
    ensures rows == NumberedRows(documentId, cs)
  {
    rows := [];
    var idx := 0;
    while idx < |cs|
      invariant 0 <= idx <= |cs|
      invariant rows == NumberedRows(documentId, cs[..idx])
    {
      rows := rows + [ChunkRow(documentId, idx + 1, cs[idx])];
      idx := idx + 1;
    }
    assert cs[..idx] == cs;
  }

  /** Ids are below the counter, and every chunk points at a document. */
  ghost predicate TablesValid(documents: seq<Document>, chunks: seq<ChunkRow>, nextDocumentId: nat)
  {
    && (forall d :: d in documents ==> d.id < nextDocumentId)
    && (forall c :: c in chunks ==> c.documentId in DocumentIds(documents))
  }

  /** Adding a document with the counter's id, and chunks pointing at it, keeps
      the tables valid once the counter moves on. */
  lemma InsertKeepsValid(documents: seq<Document>, chunks: seq<ChunkRow>, nextDocumentId: nat,
                         doc: Document, rows: seq<ChunkRow>)
    requires TablesValid(documents, chunks, nextDocumentId)
    requires doc.id == nextDocumentId
    requires forall k :: 0 <= k < |rows| ==> rows[k].documentId == doc.id
    ensures TablesValid(documents + [doc], chunks + rows, nextDocumentId + 1)
  {
    var ds := documents + [doc];
    assert doc.id in DocumentIds(ds);
    forall c | c in chunks + rows ensures c.documentId in DocumentIds(ds) {
      if c in chunks {
        var d :| d in documents && d.id == c.documentId;
        assert d in ds;
      }
    }
  }

  /** The documents and chunks tables; documents get ids from a serial counter. */
  class Corpus {
    var documents: seq<Document>
    var chunks: seq<ChunkRow>
    var nextDocumentId: nat

    ghost predicate Valid()
      reads this
    {
      TablesValid(documents, chunks, nextDocumentId)
    }

    constructor ()
      ensures Valid()
      ensures documents == [] && chunks == [] && nextDocumentId == 1
    {
      documents, chunks, nextDocumentId := [], [], 1;
    }

    /** insert_document_and_chunks, with the file's content given as texte:
        one document row with the parsed author and title, then one chunk row
        per paragraph numbered 1..n in order, all committed together. */
    method InsertDocumentAndChunks(filepath: string, texte: string) returns (docId: nat)
      requires Valid()
      modifies this
      ensures Valid()
      ensures docId == old(nextDocumentId) && docId !in DocumentIds(old(documents))
      ensures nextDocumentId == docId + 1
      ensures documents == old(documents) + [Document(docId, ParseFilename(filepath).1, ParseFilename(filepath).0, texte)]
      ensures chunks == old(chunks) + NumberedRows(docId, SplitIntoChunks(texte))
    {
      ghost var (ds, next) := (documents, nextDocumentId);
      docId := InsertDocument(filepath, texte);
      var pending := NumberChunks(docId, SplitIntoChunks(texte));
      InsertKeepsValid(ds, chunks, next, documents[|ds|], pending);
      // conn.commit(): the document and all its chunks become visible together.
      AppendChunks(pending);
    }

    /** The documents insert: a row with the parsed author and title and the
        next serial id. */
    method InsertDocument(filepath: string, texte: string) returns (docId: nat)
      modifies this`documents, this`nextDocumentId
      ensures docId == old(nextDocumentId) && nextDocumentId == docId + 1
      ensures documents == old(documents) + [Document(docId, ParseFilename(filepath).1, ParseFilename(filepath).0, texte)]
    {
      var names := ParseFilename(filepath);
      docId := nextDocumentId;
      documents := documents + [Document(docId, names.1, names.0, texte)];
      nextDocumentId := nextDocumentId + 1;
    }

    /** The chunk inserts, in order. */
    method AppendChunks(rows: seq<ChunkRow>)
      modifies this`chunks
      ensures chunks == old(chunks) + rows
    {
      chunks := chunks + rows;
    }
  }
}
