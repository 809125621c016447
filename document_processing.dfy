/** `DocumentProcessor` of the vector-store demo: text normalisation (`preprocess_text`) and
    the choice of a loader by file suffix (`load_document`). The PDF and text loaders and
    the text splitter are library code and are not part of this model; `load_document` is
    modelled up to the loader it picks. */
module DocumentProcessing {
  import opened Wrappers
  import opened PyStrings

  /** A word of `str.split()`: non-empty and without whitespace. */
  ghost predicate IsWord(w: string) {
    w != [] && NoSpace(w)
  }

  /** Every piece `str.split()` returns is a word. */
  lemma {:induction false} SplitYieldsWords(s: string)
    ensures forall k :: 0 <= k < |Split(s)| ==> IsWord(Split(s)[k])
    decreases |s|
  {
    if SkipSpace(s) != [] {
      var t := SkipSpace(s);
      SplitUnfold(s);
      FirstWordOfSkipped(s);
      var w := TakeWord(t);
      SplitYieldsWords(t[|w|..]);
      WordsCons(w, Split(t[|w|..]));
    }
  }

  /** A word in front of a sequence of words gives a sequence of words. */
  lemma WordsCons(w: string, rest: seq<string>)
    requires IsWord(w)
    requires forall k :: 0 <= k < |rest| ==> IsWord(rest[k])
    ensures forall k :: 0 <= k < |[w] + rest| ==> IsWord(([w] + rest)[k])
  {
  }

  /** After the leading whitespace, the first word is a word and strictly shortens the text. */
  lemma FirstWordOfSkipped(s: string)
    requires SkipSpace(s) != []
    ensures IsWord(TakeWord(SkipSpace(s)))
    ensures |SkipSpace(s)[|TakeWord(SkipSpace(s))|..]| < |s|
  {
  }

  /** The comprehension `''.join(c for c in s if c.isprintable())`. */
  function KeepPrintable(s: string): (r: string)
    ensures |r| <= |s|
    ensures forall i :: 0 <= i < |r| ==> IsPrintable(r[i])
    ensures forall c :: multiset(r)[c] == if IsPrintable(c) then multiset(s)[c] else 0
  {
    if s == [] then ""
    else
      assert s == [s[0]] + s[1..];
      (if IsPrintable(s[0]) then [s[0]] else []) + KeepPrintable(s[1..])
  }

  /** `preprocess_text`: collapse every whitespace run into one space and drop the leading
      and trailing whitespace, then drop the characters that are not printable. */
  function PreprocessText(text: string): (r: string)
    ensures forall i :: 0 <= i < |r| ==> IsPrintable(r[i])
  {
    KeepPrintable(Join(Split(text)))
  }

  /** The words joined by single spaces: the only whitespace is the ASCII space, there is none
      at either end and no two spaces are adjacent. */
  ghost predicate SingleSpaced(t: string) {
    && (forall i :: 0 <= i < |t| && IsSpace(t[i]) ==> t[i] == ' ')
    && (|t| > 0 ==> !IsSpace(t[0]) && !IsSpace(t[|t| - 1]))
    && (forall i :: 0 <= i < |t| - 1 ==> NotTwoSpacesAt(t, i))
  }

  /** The characters at `i` and `i + 1` are not both whitespace. */
  ghost predicate NotTwoSpacesAt(t: string, i: int)
    requires 0 <= i < |t| - 1
  {
    !(IsSpace(t[i]) && IsSpace(t[i + 1]))
  }

  /** `sub` is `s` with some characters removed, the rest kept in order. */
  ghost predicate IsSubsequence(sub: string, s: string)
    decreases |s|
  {
    if sub == [] then true
    else if s == [] then false
    else if sub[0] == s[0] then IsSubsequence(sub[1..], s[1..])
    else IsSubsequence(sub, s[1..])
  }

  /** Joining non-empty words without whitespace gives single-spaced text. */
  lemma {:induction false} JoinIsSingleSpaced(words: seq<string>)
    requires forall k :: 0 <= k < |words| ==> IsWord(words[k])
    ensures SingleSpaced(Join(words))
  {
    if |words| >= 2 {
      JoinIsSingleSpaced(words[1..]);
      var w, rest := words[0], Join(words[1..]);
      var t := w + " " + rest;
      assert t == Join(words);
      forall i | 0 <= i < |t| && IsSpace(t[i]) ensures t[i] == ' ' {
        if i > |w| { assert t[i] == rest[i - |w| - 1]; }
      }
      forall i | 0 <= i < |t| - 1 ensures NotTwoSpacesAt(t, i) {
        if i > |w| { assert t[i] == rest[i - |w| - 1] && t[i + 1] == rest[i - |w|] && NotTwoSpacesAt(rest, i - |w| - 1); }
      }
    }
  }

  /** After the join step the text is single-spaced, and it is the text with each inner
      whitespace run replaced by one space and the outer runs dropped. */
  lemma JoinedTextIsSingleSpaced(text: string)
    ensures SingleSpaced(Join(Split(text)))
    ensures Join(Split(text)) == Collapse(text)
  {
    SplitYieldsWords(text);
    JoinIsSingleSpaced(Split(text));
    JoinSplitIsCollapse(text);
  }

  /** The join step as a reference scan over the characters: drop the leading whitespace,
      then copy every other character, writing one space for each whitespace run that more
      text follows and nothing for a run at the end. */
  function Collapse(s: string): string {
    Squeeze(SkipSpace(s))
  }

  /** The scan of `Collapse` after the leading whitespace. */
  function Squeeze(s: string): string
    decreases |s|
  {
    if s == [] then []
    else if !IsSpace(s[0]) then [s[0]] + Squeeze(s[1..])
    else
      SkipSpaceDrops(s);
      var t := SkipSpace(s);
      if t == [] then [] else [' '] + Squeeze(t)
  }

  /** The scan copies a run without whitespace unchanged. */
  lemma {:induction false} SqueezeWord(w: string, rest: string)
    requires NoSpace(w)
    ensures Squeeze(w + rest) == w + Squeeze(rest)
    decreases |w|
  {
    if w != [] {
      HeadTail(w, rest, Squeeze(rest));
      assert !IsSpace(w[0]);
      calc {
        Squeeze(w + rest);
        [w[0]] + Squeeze(w[1..] + rest);
        { SqueezeWord(w[1..], rest); }
        [w[0]] + (w[1..] + Squeeze(rest));
        w + Squeeze(rest);
      }
    } else {
      assert w + rest == rest;
    }
  }

  /** The first element and the rest of a concatenation that starts with `w`. */
  lemma HeadTail(w: string, rest: string, x: string)
    requires w != []
    ensures (w + rest)[0] == w[0] && (w + rest)[1..] == w[1..] + rest
    ensures [w[0]] + (w[1..] + x) == w + x
  {
  }

  /** A whitespace run inside the text becomes one space, or nothing when it ends the text. */
  lemma SqueezeSpaceRun(rest: string)
    requires rest != [] && IsSpace(rest[0])
    ensures Squeeze(rest) == if SkipSpace(rest) == [] then [] else " " + Collapse(rest)
  {
  }

  /** `' '.join(text.split())` is the character scan `Collapse`. */
  lemma {:induction false} JoinSplitIsCollapse(s: string)
    ensures Join(Split(s)) == Collapse(s)
    decreases |s|
  {
    var t := SkipSpace(s);
    if t != [] {
      SplitUnfold(s);
      FirstWordOfSkipped(s);
      var w := TakeWord(t);
      var rest := t[|w|..];
      JoinSplitIsCollapse(rest);
      JoinWordThenRest(w, rest);
      PrefixThenRest(t, |w|);
      SqueezeWord(w, rest);
    }
  }

  /** A sequence is its first `n` elements followed by the rest. */
  lemma PrefixThenRest(t: string, n: nat)
    requires n <= |t|
    ensures t == t[..n] + t[n..]
  {
  }

  /** One word of `split()` and what follows it: the join puts the word before the collapse
      of the rest. */
  lemma JoinWordThenRest(w: string, rest: string)
    requires rest == [] || IsSpace(rest[0])
    requires Join(Split(rest)) == Collapse(rest)
    ensures Join([w] + Split(rest)) == w + Squeeze(rest)
  {
    if rest == [] || SkipSpace(rest) == [] {
      SplitOfBlank(rest);
      SqueezeOfBlank(rest);
      calc {
        Join([w] + Split(rest));
        { WithEmpty(w); }
        Join([w]);
        w;
        { WithEmpty(w); }
        w + Squeeze(rest);
      }
    } else {
      SplitUnfold(rest);
      calc {
        Join([w] + Split(rest));
        { JoinCons(w, Split(rest)); }
        w + " " + Join(Split(rest));
        w + " " + Collapse(rest);
        { Assoc(w, " ", Collapse(rest)); }
        w + (" " + Collapse(rest));
        { SqueezeSpaceRun(rest); }
        w + Squeeze(rest);
      }
    }
  }

  /** Appending the empty sequence changes nothing. */
  lemma WithEmpty(w: string)
    ensures [w] + [] == [w] && w + [] == w
  {
  }

  /** Concatenation is associative. */
  lemma Assoc(a: string, b: string, c: string)
    ensures a + b + c == a + (b + c)
  {
  }

  /** Blank text splits into nothing. */
  lemma SplitOfBlank(s: string)
    requires SkipSpace(s) == []
    ensures Split(s) == []
  {
  }

  /** Blank text squeezes to nothing. */
  lemma SqueezeOfBlank(s: string)
    requires s == [] || (IsSpace(s[0]) && SkipSpace(s) == [])
    ensures Squeeze(s) == []
  {
  }

  /** Text made only of whitespace (possibly none). */
  ghost predicate Blank(g: string) {
    forall i :: 0 <= i < |g| ==> IsSpace(g[i])
  }

  /** `lstrip` removes a blank prefix entirely. */
  lemma {:induction false} SkipBlankPrefix(g: string, x: string)
    requires Blank(g)
    ensures SkipSpace(g + x) == SkipSpace(x)
    decreases |g|
  {
    if g != [] {
      assert (g + x)[0] == g[0];
      SkipSpaceStep(g + x);
      assert (g + x)[1..] == g[1..] + x;
      SkipBlankPrefix(g[1..], x);
    } else {
      assert g + x == x;
    }
  }

  /** Two words with whitespace before, between and after them: the join step keeps the
      words and puts exactly one space between them, however long and of whatever kind the
      whitespace runs are. */
  lemma CollapseTwoWords(g1: string, a: string, g2: string, b: string, g3: string)
    requires Blank(g1) && Blank(g2) && Blank(g3) && g2 != []
    requires IsWord(a) && IsWord(b)
    ensures Join(Split(g1 + a + g2 + b + g3)) == a + " " + b
  {
    RightNested(g1, a, g2, b, g3);
    var bt := b + g3;
    var tail := g2 + bt;
    var x := a + tail;
    SkipBlankPrefix(g2, bt);
    SkipSpaceStop(bt);
    calc {
      Join(Split(g1 + a + g2 + b + g3));
      Join(Split(g1 + x));
      { JoinSplitIsCollapse(g1 + x); }
      Squeeze(SkipSpace(g1 + x));
      { SkipBlankPrefix(g1, x); SkipSpaceStop(x); }
      Squeeze(x);
      { SqueezeWord(a, tail); }
      a + Squeeze(tail);
      { SqueezeSpaceRun(tail); }
      a + (" " + Squeeze(bt));
      { SqueezeWord(b, g3); }
      a + (" " + (b + Squeeze(g3)));
      { if g3 != [] { SkipBlankPrefix(g3, []); } SqueezeOfBlank(g3); }
      a + (" " + (b + []));
      a + " " + b;
    }
  }

  /** The concatenations `CollapseTwoWords` takes apart, nested to the right. */
  lemma RightNested(g1: string, a: string, g2: string, b: string, g3: string)
    requires a != [] && b != [] && g2 != []
    ensures g1 + a + g2 + b + g3 == g1 + (a + (g2 + (b + g3)))
    ensures (a + (g2 + (b + g3)))[0] == a[0]
    ensures (g2 + (b + g3))[0] == g2[0]
    ensures (b + g3)[0] == b[0]
    ensures g3 + [] == g3
    ensures a + (" " + (b + [])) == a + " " + b
  {
  }

  /** The whitespace runs and the words of the demo below. */
  lemma DemoPieces()
    ensures Blank("\n ") && Blank(" \t ") && Blank("  ")
    ensures IsWord("a") && IsWord("b")
    ensures "\n a \t b  " == "\n " + "a" + " \t " + "b" + "  "
    ensures forall i :: 0 <= i < |"a b"| ==> IsPrintable("a b"[i])
  {
  }

  /** The demo's cleanup in small: the newline and space in front, the space-tab-space run
      between the words and the two trailing spaces all collapse. */
  lemma CollapseDemo()
    ensures PreprocessText("\n a \t b  ") == "a b"
  {
    DemoPieces();
    calc {
      PreprocessText("\n a \t b  ");
      KeepPrintable(Join(Split("\n " + "a" + " \t " + "b" + "  ")));
      { CollapseTwoWords("\n ", "a", " \t ", "b", "  "); }
      KeepPrintable("a" + " " + "b");
      { assert "a" + " " + "b" == "a b"; AllPrintableKept("a b"); }
      "a b";
    }
  }

  /** The join step never lengthens the text past what remains after the leading whitespace. */
  lemma {:induction false} JoinSplitLength(s: string)
    ensures |Join(Split(s))| <= |SkipSpace(s)|
    decreases |s|
  {
    var t := SkipSpace(s);
    if t != [] {
      var w := TakeWord(t);
      var rest := t[|w|..];
      var words := Split(rest);
      SplitUnfold(s);
      JoinSplitLength(rest);
      if words != [] {
        SkipSpaceDrops(rest);
        JoinCons(w, words);
      }
    }
  }

  /** `lstrip` drops a leading whitespace character. */
  lemma SkipSpaceStep(s: string)
    requires s != [] && IsSpace(s[0])
    ensures SkipSpace(s) == SkipSpace(s[1..])
  {
  }

  /** `lstrip` keeps text that starts with a non-space character. */
  lemma SkipSpaceStop(s: string)
    requires s != [] && !IsSpace(s[0])
    ensures SkipSpace(s) == s
  {
  }

  /** One step of `str.split()` on text that is not blank. */
  lemma SplitUnfold(s: string)
    requires SkipSpace(s) != []
    ensures Split(s) == [TakeWord(SkipSpace(s))] + Split(SkipSpace(s)[|TakeWord(SkipSpace(s))|..])
  {
  }

  /** Text that starts with whitespace loses at least that character to `lstrip`. */
  lemma SkipSpaceDrops(r: string)
    requires r != [] && IsSpace(r[0])
    ensures |SkipSpace(r)| < |r|
  {
    assert SkipSpace(r) == SkipSpace(r[1..]);
  }

  /** Filtering keeps an order-preserving subsequence. */
  lemma {:induction false} KeepPrintableIsSubsequence(s: string)
    ensures IsSubsequence(KeepPrintable(s), s)
  {
    if s != [] {
      KeepPrintableIsSubsequence(s[1..]);
      if !IsPrintable(s[0]) {
        assert KeepPrintable(s) == KeepPrintable(s[1..]);
        SubsequenceOfTail(KeepPrintable(s[1..]), s);
      } else {
        assert KeepPrintable(s) == [s[0]] + KeepPrintable(s[1..]);
      }
    }
  }

  /** A subsequence of `s[1..]` is a subsequence of `s`. */
  lemma {:induction false} SubsequenceOfTail(sub: string, s: string)
    requires s != [] && IsSubsequence(sub, s[1..])
    ensures IsSubsequence(sub, s)
    decreases |s|, 0
  {
    if sub != [] && sub[0] == s[0] {
      SubsequenceDropHead(sub, s[1..]);
    }
  }

  /** Dropping the first element of a subsequence leaves a subsequence. */
  lemma {:induction false} SubsequenceDropHead(sub: string, s: string)
    requires sub != [] && IsSubsequence(sub, s)
    ensures IsSubsequence(sub[1..], s)
    decreases |s|, 1
  {
    if sub[0] == s[0] {
      SubsequenceOfTail(sub[1..], s);
    } else {
      SubsequenceDropHead(sub, s[1..]);
      SubsequenceOfTail(sub[1..], s);
    }
  }

  /** The result of `preprocess_text` is an order-preserving subsequence of the joined text,
      and it is no longer than the input. */
  lemma PreprocessShrinks(text: string)
    ensures IsSubsequence(PreprocessText(text), Join(Split(text)))
    ensures |PreprocessText(text)| <= |text|
  {
    KeepPrintableIsSubsequence(Join(Split(text)));
    JoinSplitLength(text);
  }

  /** Empty or all-whitespace input gives "". */
  lemma BlankTextYieldsEmpty(text: string)
    requires forall i :: 0 <= i < |text| ==> IsSpace(text[i])
    ensures PreprocessText(text) == ""
  {
    assert SkipSpace(text) == [];
  }

  /** What follows a space inside single-spaced text is single-spaced again. */
  lemma SingleSpacedSuffix(t: string, k: nat)
    requires SingleSpaced(t) && 0 < k < |t| && IsSpace(t[k - 1])
    ensures SingleSpaced(t[k..])
  {
    var u := t[k..];
    assert NotTwoSpacesAt(t, k - 1);
    assert forall i :: 0 <= i < |u| ==> u[i] == t[k + i];
    forall i | 0 <= i < |u| - 1 ensures NotTwoSpacesAt(u, i) {
      assert NotTwoSpacesAt(t, k + i);
    }
  }

  /** Splitting text that starts with one space followed by a non-space character splits
      what follows the space. */
  lemma SplitAfterOneSpace(rest: string)
    requires |rest| >= 2 && IsSpace(rest[0]) && !IsSpace(rest[1])
    ensures Split(rest) == Split(rest[1..])
  {
    assert SkipSpace(rest) == SkipSpace(rest[1..]) == rest[1..];
  }

  /** In single-spaced text, a word that stops before the end is followed by one space and
      then by a non-space character. */
  lemma WordThenOneSpace(t: string, n: nat)
    requires SingleSpaced(t) && n < |t| && IsSpace(t[n])
    ensures t[n] == ' ' && n + 1 < |t| && !IsSpace(t[n + 1])
  {
    if n + 1 < |t| {
      assert NotTwoSpacesAt(t, n);
    }
  }

  /** Text that starts with a non-space character splits into its first word and the split
      of what follows it. */
  lemma SplitFirstWord(t: string)
    requires t != [] && !IsSpace(t[0])
    ensures Split(t) == [TakeWord(t)] + Split(t[|TakeWord(t)|..])
  {
    assert SkipSpace(t) == t;
  }

  /** Joining a word in front of a non-empty list of words puts one space between them. */
  lemma JoinCons(w: string, words: seq<string>)
    requires words != []
    ensures Join([w] + words) == w + " " + Join(words)
  {
    assert ([w] + words)[1..] == words;
  }

  /** A single word splits into itself. */
  lemma SplitOfWord(w: string)
    requires IsWord(w)
    ensures Split(w) == [w]
  {
    SplitFirstWord(w);
    assert TakeWord(w) == w;
    assert w[|w|..] == [];
  }

  /** A word, one space and text starting with a non-space character: the word comes first,
      then the split of the text. */
  lemma SplitWordSpaceRest(w: string, r: string)
    requires IsWord(w) && r != [] && !IsSpace(r[0])
    ensures Split(w + " " + r) == [w] + Split(r)
    ensures Split(r) != []
  {
    var sr := " " + r;
    var t := w + sr;
    assert t == w + " " + r;
    TakeWordStopsAtSpace(w, sr);
    SplitFirstWord(t);
    assert t[|w|..] == sr;
    assert sr[1..] == r;
    SplitAfterOneSpace(sr);
    SplitFirstWord(r);
  }

  /** `TakeWord` stops exactly at the end of a word followed by whitespace. */
  lemma {:induction false} TakeWordStopsAtSpace(w: string, r: string)
    requires NoSpace(w) && r != [] && IsSpace(r[0])
    ensures TakeWord(w + r) == w
  {
    if w == [] {
    } else {
      assert (w + r)[1..] == w[1..] + r;
      TakeWordStopsAtSpace(w[1..], r);
    }
  }

  /** Single-spaced text is a fixed point of the join step. */
  lemma {:induction false} SingleSpacedIsFixedPoint(t: string)
    requires SingleSpaced(t)
    ensures Join(Split(t)) == t
    decreases |t|
  {
    if t != [] {
      var w := TakeWord(t);
      if |w| == |t| {
        SplitOfWord(t);
      } else {
        var k := |w| + 1;
        WordThenOneSpace(t, |w|);
        SingleSpacedSuffix(t, k);
        var r := t[k..];
        assert t == w + " " + r;
        SingleSpacedIsFixedPoint(r);
        SplitWordSpaceRest(w, r);
        JoinCons(w, Split(r));
      }
    }
  }

  /** Input without whitespace and with only printable characters comes back unchanged. */
  lemma CleanTextUnchanged(text: string)
    requires NoSpace(text)
    requires forall i :: 0 <= i < |text| ==> IsPrintable(text[i])
    ensures PreprocessText(text) == text
  {
    assert SingleSpaced(text);
    SingleSpacedIsFixedPoint(text);
    AllPrintableKept(text);
  }

  /** Filtering text whose characters are all printable changes nothing. */
  lemma {:induction false} AllPrintableKept(s: string)
    requires forall i :: 0 <= i < |s| ==> IsPrintable(s[i])
    ensures KeepPrintable(s) == s
  {
    if s != [] {
      AllPrintableKept(s[1..]);
    }
  }

  /** The loaders `load_document` can pick. */
  datatype Loader = PdfLoader | TextLoader

  /** The message of the ValueError raised for an unsupported suffix, before the suffix. */
  const UnsupportedFormat: string := "不支持的文件格式："

  /** The part of `p` after its last '/'. */
  function LastSegment(p: string): (r: string)
    ensures |r| <= |p|
  {
    if p == [] || p[|p| - 1] == '/' then [] else LastSegment(p[..|p| - 1]) + [p[|p| - 1]]
  }

  /** `Path(p).name` for a POSIX path: the last component, skipping empty and "." components. */
  function FileName(p: string): string
    decreases |p|
  {
    var last := LastSegment(p);
    if last != [] && last != "." then last
    else if |last| == |p| then []
    else FileName(p[..|p| - |last| - 1])
  }

  /** The index of the last '.' in `s`, or -1. */
  function LastDot(s: string): (i: int)
    ensures -1 <= i < |s|
  {
    if s == [] then -1
    else if s[|s| - 1] == '.' then |s| - 1
    else LastDot(s[..|s| - 1])
  }

  /** `Path.suffix` for a name: from its last '.' on, provided that dot is neither the first
      nor the last character; otherwise empty. */
  function Suffix(name: string): string {
    var i := LastDot(name);
    if 0 < i < |name| - 1 then name[i..] else []
  }

  /** `load_document` up to the loader it builds: ".pdf" picks the PDF loader, ".txt" the text
      loader, and every other suffix raises ValueError naming the suffix. */
  function LoadDocument(path: string): Result<Loader, string> {
    var suffix := Suffix(FileName(path));
    if suffix == ".pdf" then Ok(PdfLoader)
    else if suffix == ".txt" then Ok(TextLoader)
    else Err(UnsupportedFormat + suffix)
  }

  /** The path of `name`, on its own or inside the directory `dir`. */
  function InDir(dir: Option<string>, name: string): string {
    match dir
    case None => name
    case Some(d) => d + "/" + name
  }

  /** Dropping the last character of a path drops the last character of its name. */
  lemma InDirInit(dir: Option<string>, name: string)
    requires name != []
    ensures InDir(dir, name) != []
    ensures InDir(dir, name)[..|InDir(dir, name)| - 1] == InDir(dir, name[..|name| - 1])
    ensures InDir(dir, name)[|InDir(dir, name)| - 1] == name[|name| - 1]
  {
    if dir.Some? {
      assert InDir(dir, name) == (dir.value + "/") + name;
      assert InDir(dir, name[..|name| - 1]) == (dir.value + "/") + name[..|name| - 1];
    }
  }

  /** The last segment of a path to `name`, bare or inside a directory, is `name` when `name`
      holds no '/'. */
  lemma {:induction false} LastSegmentOf(dir: Option<string>, name: string)
    requires '/' !in name
    ensures LastSegment(InDir(dir, name)) == name
    decreases |name|
  {
    if name != [] {
      var p := InDir(dir, name);
      var init, last := name[..|name| - 1], name[|name| - 1];
      InDirInit(dir, name);
      LastAndInit(name);
      calc {
        LastSegment(p);
        LastSegment(p[..|p| - 1]) + [p[|p| - 1]];
        { LastSegmentOf(dir, init); }
        init + [last];
        name;
      }
    } else if dir.Some? {
      assert InDir(dir, name) == dir.value + "/";
    }
  }

  /** The last character of a text without '/' is no '/', and neither is any character
      before it. */
  lemma LastAndInit(name: string)
    requires name != [] && '/' !in name
    ensures name[|name| - 1] != '/' && '/' !in name[..|name| - 1]
    ensures name[..|name| - 1] + [name[|name| - 1]] == name
  {
    assert name[|name| - 1] in name;
    assert forall c :: c in name[..|name| - 1] ==> c in name;
  }

  /** The name of a path to `name` is `name` when `name` is a proper component. */
  lemma FileNameOf(dir: Option<string>, name: string)
    requires name != [] && name != "." && '/' !in name
    ensures FileName(InDir(dir, name)) == name
  {
    LastSegmentOf(dir, name);
  }

  /** A trailing '/' does not change the name. */
  lemma FileNameTrailingSlash(p: string)
    ensures FileName(p + "/") == FileName(p)
  {
    var q := p + "/";
    assert LastSegment(q) == [];
    assert q[..|q| - 1] == p;
  }

  /** The last dot of `stem.ext` is the one after the stem when `ext` holds no dot. */
  lemma {:induction false} LastDotOf(stem: string, ext: string)
    requires '.' !in ext
    ensures LastDot(stem + "." + ext) == |stem|
    decreases |ext|
  {
    var s := stem + "." + ext;
    if ext != [] {
      var init := ext[..|ext| - 1];
      assert s[..|s| - 1] == stem + "." + init;
      assert s[|s| - 1] == ext[|ext| - 1];
      assert ext[|ext| - 1] in ext;
      assert forall c :: c in init ==> c in ext;
      LastDotOf(stem, init);
    }
  }

  /** A name without a dot has no last dot. */
  lemma {:induction false} LastDotNone(s: string)
    requires '.' !in s
    ensures LastDot(s) == -1
    decreases |s|
  {
    if s != [] {
      var init := s[..|s| - 1];
      assert s[|s| - 1] in s;
      assert forall c :: c in init ==> c in s;
      LastDotNone(init);
    }
  }

  /** The suffix of `stem.ext` is `.ext` when the stem is not empty and `ext` holds no dot. */
  lemma SuffixOf(stem: string, ext: string)
    requires stem != [] && ext != [] && '.' !in ext
    ensures Suffix(stem + "." + ext) == "." + ext
  {
    var name := stem + "." + ext;
    LastDotOf(stem, ext);
    assert name[|stem|..] == "." + ext;
  }

  /** The name of `stem.ext`, bare or inside a directory, is `stem.ext`. */
  lemma FileNameWithSuffix(dir: Option<string>, stem: string, ext: string)
    requires stem != [] && '/' !in stem && '/' !in ext
    ensures FileName(InDir(dir, stem + "." + ext)) == stem + "." + ext
  {
    var name := stem + "." + ext;
    assert forall c :: c in name ==> c in stem || c == '.' || c in ext;
    FileNameOf(dir, name);
  }

  /** `load_document` on `stem.ext`, bare or inside a directory: the PDF loader for `pdf`,
      the text loader for `txt`, and ValueError naming `.ext` for every other extension. Only
      the last suffix counts, so the stem may hold dots; the comparison is case-sensitive, so
      `PDF` is refused. */
  lemma LoadBySuffix(dir: Option<string>, stem: string, ext: string)
    requires stem != [] && ext != [] && '/' !in stem && '/' !in ext && '.' !in ext
    ensures LoadDocument(InDir(dir, stem + "." + ext))
      == if ext == "pdf" then Ok(PdfLoader)
         else if ext == "txt" then Ok(TextLoader)
         else Err(UnsupportedFormat + "." + ext)
  {
    FileNameWithSuffix(dir, stem, ext);
    SuffixOf(stem, ext);
    DispatchOnSuffix(InDir(dir, stem + "." + ext), ext);
  }

  /** `load_document` compares the suffix `.ext` with ".pdf" and ".txt". */
  lemma DispatchOnSuffix(path: string, ext: string)
    requires Suffix(FileName(path)) == "." + ext
    ensures LoadDocument(path)
      == if ext == "pdf" then Ok(PdfLoader)
         else if ext == "txt" then Ok(TextLoader)
         else Err(UnsupportedFormat + "." + ext)
  {
    var suffix := "." + ext;
    assert suffix[1..] == ext;
    assert suffix == ".pdf" <==> ext == "pdf";
    assert suffix == ".txt" <==> ext == "txt";
    assert UnsupportedFormat + suffix == UnsupportedFormat + "." + ext;
  }

  /** The demo's two formats as bare file names: "report.pdf" and "notes.txt". */
  lemma LoadDemo()
    ensures LoadDocument("report.pdf") == Ok(PdfLoader)
    ensures LoadDocument("notes.txt") == Ok(TextLoader)
  {
    assert InDir(None, "report" + "." + "pdf") == "report.pdf";
    LoadBySuffix(None, "report", "pdf");
    assert InDir(None, "notes" + "." + "txt") == "notes.txt";
    LoadBySuffix(None, "notes", "txt");
  }

  /** The bare dot file ".pdf" has no suffix and is refused. */
  lemma LoadHiddenDemo()
    ensures LoadDocument(".pdf") == Err(UnsupportedFormat)
  {
    assert InDir(None, "." + "pdf") == ".pdf";
    LoadHiddenFile(None, "pdf");
  }

  /** A trailing '/' on the path is ignored. */
  lemma LoadTrailingSlash(path: string)
    ensures LoadDocument(path + "/") == LoadDocument(path)
  {
    FileNameTrailingSlash(path);
  }

  /** A name that starts with its only dot, such as `.pdf`, bare or inside a directory,
      has no suffix and is refused with an empty suffix in the message. */
  lemma LoadHiddenFile(dir: Option<string>, ext: string)
    requires ext != [] && '/' !in ext && '.' !in ext
    ensures LoadDocument(InDir(dir, "." + ext)) == Err(UnsupportedFormat)
  {
    var name := "." + ext;
    assert |name| >= 2;
    assert forall c :: c in name ==> c == '.' || c in ext;
    FileNameOf(dir, name);
    LastDotOf([], ext);
    assert [] + "." + ext == name;
    assert UnsupportedFormat + [] == UnsupportedFormat;
  }

  /** A name without a dot, bare or inside a directory, has no suffix and is refused. */
  lemma LoadNoSuffix(dir: Option<string>, name: string)
    requires name != [] && '/' !in name && '.' !in name
    ensures LoadDocument(InDir(dir, name)) == Err(UnsupportedFormat)
  {
    assert name[0] in name;
    FileNameOf(dir, name);
    LastDotNone(name);
    assert UnsupportedFormat + [] == UnsupportedFormat;
  }
}
