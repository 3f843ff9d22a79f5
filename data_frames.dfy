/** The table helpers of fittools/data_frames.py: the column-name normaliser,
    the pairing of value columns with their error columns, the boolean-Series
    filter, the row/column split and the coordinate grid. A table is held as
    its row labels, its column labels and its rows of cells. */
module DataFrames {
  import opened Wrappers
  import opened Errors
  import opened Sequences

  // ---------------------------------------------------------------------
  // Character-level helpers of _norm_str
  // ---------------------------------------------------------------------

  /** The character classes `_norm_str` works with: Python's `str.isspace`
      (what `strip()` removes), `[ \-\.]`, `_`, and `[a-z0-9_]`. */
  datatype CharClass = Space | Separator | Underscore | NormChar

  predicate In(k: CharClass, c: char)
  {
    match k
    case Space =>
      || ('\t' <= c <= '\r') || ('\U{1C}' <= c <= '\U{1F}') || c == ' '
      || c == '\U{85}' || c == '\U{A0}' || c == '\U{1680}'
      || ('\U{2000}' <= c <= '\U{200A}') || c == '\U{2028}' || c == '\U{2029}'
      || c == '\U{202F}' || c == '\U{205F}' || c == '\U{3000}'
    case Separator => c == ' ' || c == '-' || c == '.'
    case Underscore => c == '_'
    case NormChar => ('a' <= c <= 'z') || ('0' <= c <= '9') || c == '_'
  }

  /** Drops the longest prefix of characters of class k. */
  function TrimLeft(s: string, k: CharClass): (r: string)
    ensures |r| <= |s| && r == s[|s| - |r|..]
    ensures r == [] || !In(k, r[0])
  {
    if s != [] && In(k, s[0]) then TrimLeft(s[1..], k) else s
  }

  /** What TrimLeft drops is all of class k. */
  lemma {:induction false} TrimLeftDropsClass(s: string, k: CharClass)
    ensures forall i :: 0 <= i < |s| - |TrimLeft(s, k)| ==> In(k, s[i])
  {
    if s != [] && In(k, s[0]) {
      TrimLeftDropsClass(s[1..], k);
    }
  }

  /** Drops the longest suffix of characters of class k. */
  function TrimRight(s: string, k: CharClass): (r: string)
    ensures |r| <= |s| && r == s[..|r|]
    ensures r == [] || !In(k, r[|r| - 1])
  {
    if s != [] && In(k, s[|s| - 1]) then TrimRight(s[..|s| - 1], k) else s
  }

  /** `s.strip()` (k = Space) and `s.strip("_")` (k = Underscore). */
  function Strip(s: string, k: CharClass): (r: string)
    ensures r == [] || (!In(k, r[0]) && !In(k, r[|r| - 1]))
  {
    TrimRight(TrimLeft(s, k), k)
  }

  /** `str.lower` on the ASCII letters. */
  function LowerChar(c: char): (d: char)
    ensures 'A' <= c <= 'Z' ==> 'a' <= d <= 'z'
    ensures !('A' <= c <= 'Z') ==> d == c
  {
    if 'A' <= c <= 'Z' then (c as int + 32) as char else c
  }

  function Lower(s: string): (r: string)
    ensures |r| == |s|
    ensures forall i :: 0 <= i < |s| ==> r[i] == LowerChar(s[i])
  {
    if s == [] then [] else [LowerChar(s[0])] + Lower(s[1..])
  }

  /** The scan behind `re.sub(r"<class>+", "_", s)`: `inRun` says whether the
      previous character was of class k. The first character of each run
      writes one '_'; the rest of the run writes nothing. */
  function Subst(s: string, k: CharClass, inRun: bool): string
  {
    if s == [] then []
    else if In(k, s[0]) then (if inRun then [] else "_") + Subst(s[1..], k, true)
    else [s[0]] + Subst(s[1..], k, false)
  }

  /** `re.sub(r"<class>+", "_", s)`: every maximal run of characters of class
      k becomes one '_'. */
  function SubRuns(s: string, k: CharClass): string
  {
    Subst(s, k, false)
  }

  /** The scan state after reading s from state `inRun`. */
  function EndsInRun(s: string, k: CharClass, inRun: bool): bool
  {
    if s == [] then inRun else In(k, s[|s| - 1])
  }

  /** `re.sub(r"[^a-z0-9_]", "", s)`: the characters of class k, in order. */
  function Keep(s: string, k: CharClass): (r: string)
    ensures |r| <= |s|
    ensures forall i :: 0 <= i < |r| ==> In(k, r[i])
  {
    if s == [] then [] else (if In(k, s[0]) then [s[0]] else []) + Keep(s[1..], k)
  }

  /** Every character of class k survives the deletion. */
  lemma {:induction false} KeepAll(s: string, k: CharClass)
    requires forall i :: 0 <= i < |s| ==> In(k, s[i])
    ensures Keep(s, k) == s
  {
    if s != [] {
      KeepAll(s[1..], k);
    }
  }

  /** A prefix of a suffix is a slice. */
  lemma PrefixOfSuffix(s: string, j: nat, m: nat)
    requires j + m <= |s|
    ensures s[j..][..m] == s[j..j + m]
  {
  }

  /** A slice of s: the stripped string is s[j..j + |r|]. */
  lemma StripSlice(s: string, k: CharClass) returns (j: nat)
    ensures j + |Strip(s, k)| <= |s| && Strip(s, k) == s[j..j + |Strip(s, k)|]
  {
    var left := TrimLeft(s, k);
    j := |s| - |left|;
    var r := TrimRight(left, k);
    assert left == s[j..] && r == left[..|r|];
    PrefixOfSuffix(s, j, |r|);
  }

  /** After the substitution no two characters of the class are adjacent, and
      a scan that starts inside a run does not start with one. */
  lemma {:induction false} SubstNoAdjacent(s: string, k: CharClass, inRun: bool)
    requires In(k, '_')
    ensures forall i :: 0 <= i < |Subst(s, k, inRun)| - 1 ==>
      !(In(k, Subst(s, k, inRun)[i]) && In(k, Subst(s, k, inRun)[i + 1]))
    ensures inRun && Subst(s, k, inRun) != [] ==> !In(k, Subst(s, k, inRun)[0])
  {
    if s != [] {
      SubstNoAdjacent(s[1..], k, In(k, s[0]));
    }
  }

  lemma SubRunsNoAdjacent(s: string, k: CharClass)
    requires In(k, '_')
    ensures forall i :: 0 <= i < |SubRuns(s, k)| - 1 ==> !(In(k, SubRuns(s, k)[i]) && In(k, SubRuns(s, k)[i + 1]))
  {
    SubstNoAdjacent(s, k, false);
  }

  /** Every output character is '_' or a character of the input. */
  lemma {:induction false} SubstFromInput(s: string, k: CharClass, inRun: bool)
    ensures forall i :: 0 <= i < |Subst(s, k, inRun)| ==>
      Subst(s, k, inRun)[i] == '_' || Subst(s, k, inRun)[i] in s
  {
    if s != [] {
      SubstFromInput(s[1..], k, In(k, s[0]));
      var h := if In(k, s[0]) then (if inRun then [] else "_") else [s[0]];
      var t := Subst(s[1..], k, In(k, s[0]));
      assert Subst(s, k, inRun) == h + t;
      assert forall i :: |h| <= i < |h| + |t| ==> (h + t)[i] == t[i - |h|];
      assert forall c :: c in s[1..] ==> c in s;
    }
  }

  /** A class q disjoint from '_' cannot appear in the substitution's output
      unless it was in the input. */
  lemma SubRunsKeepsOut(s: string, k: CharClass, q: CharClass)
    requires forall i :: 0 <= i < |s| ==> !In(q, s[i])
    requires !In(q, '_')
    ensures forall i :: 0 <= i < |SubRuns(s, k)| ==> !In(q, SubRuns(s, k)[i])
  {
    SubstFromInput(s, k, false);
  }

  /** No character of the class is left after its own substitution, other than
      the '_' it writes. */
  lemma {:induction false} SubstRemovesClass(s: string, k: CharClass, inRun: bool)
    ensures forall i :: 0 <= i < |Subst(s, k, inRun)| ==>
      !In(k, Subst(s, k, inRun)[i]) || Subst(s, k, inRun)[i] == '_'
  {
    if s != [] {
      SubstRemovesClass(s[1..], k, In(k, s[0]));
    }
  }

  lemma SubRunsRemovesClass(s: string, k: CharClass)
    ensures forall i :: 0 <= i < |SubRuns(s, k)| ==> !In(k, SubRuns(s, k)[i]) || SubRuns(s, k)[i] == '_'
  {
    SubstRemovesClass(s, k, false);
  }

  /** What the scan writes for one character c read in state `inRun`. */
  function RunHead(c: char, k: CharClass, inRun: bool): string
  {
    if In(k, c) then (if inRun then [] else "_") else [c]
  }

  /** One step of the scan: the first character's output, then the scan of
      the rest in the state that character leaves. */
  lemma SubstStep(s: string, k: CharClass, inRun: bool)
    requires s != []
    ensures Subst(s, k, inRun) == RunHead(s[0], k, inRun) + Subst(s[1..], k, In(k, s[0]))
  {
  }

  /** The scan of a concatenation resumes, on the second part, in the state
      the first part left it in. */
  lemma {:induction false} SubstAppend(a: string, b: string, k: CharClass, inRun: bool)
    ensures Subst(a + b, k, inRun) == Subst(a, k, inRun) + Subst(b, k, EndsInRun(a, k, inRun))
  {
    if a == [] {
      assert a + b == b;
    } else {
      var next := In(k, a[0]);
      var h := RunHead(a[0], k, inRun);
      var x := Subst(a[1..], k, next);
      var y := Subst(b, k, EndsInRun(a, k, inRun));
      assert Subst(a + b, k, inRun) == h + Subst(a[1..] + b, k, next) by {
        var ab := a + b;
        assert ab[0] == a[0] && ab[1..] == a[1..] + b;
        SubstStep(ab, k, inRun);
      }
      assert Subst(a[1..] + b, k, next) == x + y by {
        SubstAppend(a[1..], b, k, next);
        assert EndsInRun(a, k, inRun) == EndsInRun(a[1..], k, next);
      }
      assert Subst(a, k, inRun) == h + x by {
        SubstStep(a, k, inRun);
      }
      ConcatAssoc(h, x, y);
    }
  }

  /** Substitution distributes over a concatenation that does not join two
      runs. */
  lemma SubRunsAppend(a: string, b: string, k: CharClass)
    requires a == [] || b == [] || !In(k, a[|a| - 1]) || !In(k, b[0])
    ensures SubRuns(a + b, k) == SubRuns(a, k) + SubRuns(b, k)
  {
    SubstAppend(a, b, k, false);
  }

  /** A non-empty run read from outside a run writes one '_'; read from inside
      one, it writes nothing. */
  lemma {:induction false} SubstRun(run: string, k: CharClass, inRun: bool)
    requires forall i :: 0 <= i < |run| ==> In(k, run[i])
    ensures Subst(run, k, true) == []
    ensures run != [] ==> Subst(run, k, false) == "_"
  {
    if run != [] {
      SubstRun(run[1..], k, true);
    }
  }

  /** One run between two parts without the class becomes one '_'. */
  lemma SubRunsRun(x: string, run: string, y: string, k: CharClass)
    requires forall i :: 0 <= i < |x| ==> !In(k, x[i])
    requires run != [] && forall i :: 0 <= i < |run| ==> In(k, run[i])
    requires forall i :: 0 <= i < |y| ==> !In(k, y[i])
    ensures SubRuns(x + run + y, k) == x + "_" + y
  {
    assert x + run + y == x + (run + y);
    SubstAppend(x, run + y, k, false);
    SubstIdentityAbsent(x, k, false);
    SubstAppend(run, y, k, false);
    SubstRun(run, k, false);
    SubstIdentityAbsent(y, k, true);
  }

  lemma {:induction false} KeepAppend(a: string, b: string, k: CharClass)
    ensures Keep(a + b, k) == Keep(a, k) + Keep(b, k)
  {
    if a != [] {
      assert (a + b)[0] == a[0] && (a + b)[1..] == a[1..] + b;
      KeepAppend(a[1..], b, k);
      var h := if In(k, a[0]) then [a[0]] else [];
      assert Keep(a + b, k) == h + Keep(a[1..] + b, k);
      assert Keep(a, k) == h + Keep(a[1..], k);
      ConcatAssoc(h, Keep(a[1..], k), Keep(b, k));
    } else {
      assert a + b == b;
    }
  }

  /** A prefix inside the class is kept whole, a following part outside it is
      dropped whole. */
  lemma KeepDrop(x: string, y: string, z: string, k: CharClass)
    requires forall i :: 0 <= i < |x| ==> In(k, x[i])
    requires forall i :: 0 <= i < |y| ==> !In(k, y[i])
    ensures Keep(x + y + z, k) == x + Keep(z, k)
  {
    KeepAll(x, k);
    KeepNone(y, k);
    KeepAppend(x + y, z, k);
    KeepAppend(x, y, k);
    assert x + [] == x;
  }

  lemma {:induction false} KeepNone(s: string, k: CharClass)
    requires forall i :: 0 <= i < |s| ==> !In(k, s[i])
    ensures Keep(s, k) == []
  {
    if s != [] {
      KeepNone(s[1..], k);
    }
  }

  /** Lowercasing character by character. */
  lemma LowerIs(s: string, t: string)
    requires |t| == |s| && forall i :: 0 <= i < |s| ==> t[i] == LowerChar(s[i])
    ensures Lower(s) == t
  {
  }

  lemma {:induction false} LowerAppend(a: string, b: string)
    ensures Lower(a + b) == Lower(a) + Lower(b)
  {
    if a != [] {
      assert (a + b)[0] == a[0] && (a + b)[1..] == a[1..] + b;
      LowerAppend(a[1..], b);
    }
  }

  // ---------------------------------------------------------------------
  // _norm_str
  // ---------------------------------------------------------------------

  /** The first five steps of `_norm_str`: strip whitespace, lowercase, turn
      each run of spaces, hyphens and dots into '_', collapse runs of '_', and
      strip '_' at both ends. */
  function Trimmed(s: string): string
  {
    var stripped := Strip(s, Space);
    var lowered := Lower(stripped);
    var separated := SubRuns(lowered, Separator);
    var collapsed := SubRuns(separated, Underscore);
    Strip(collapsed, Underscore)
  }

  /** `_norm_str`: the first five steps, and only then the deletion of every
      character outside [a-z0-9_]. */
  function NormStr(s: string): (r: string)
    ensures forall i :: 0 <= i < |r| ==> In(NormChar, r[i])
  {
    Keep(Trimmed(s), NormChar)
  }

  /** No space, hyphen or dot survives the first substitution. */
  lemma SeparatedClean(l: string)
    ensures forall i :: 0 <= i < |SubRuns(l, Separator)| ==> !In(Separator, SubRuns(l, Separator)[i])
  {
    SubRunsRemovesClass(l, Separator);
  }

  /** Collapsing '_' adds no separator and leaves no "__". */
  lemma CollapsedClean(p: string)
    requires forall i :: 0 <= i < |p| ==> !In(Separator, p[i])
    ensures forall i :: 0 <= i < |SubRuns(p, Underscore)| ==> !In(Separator, SubRuns(p, Underscore)[i])
    ensures forall i :: 0 <= i < |SubRuns(p, Underscore)| - 1 ==>
      !(SubRuns(p, Underscore)[i] == '_' && SubRuns(p, Underscore)[i + 1] == '_')
  {
    SubRunsKeepsOut(p, Underscore, Separator);
    SubRunsNoAdjacent(p, Underscore);
  }

  /** A slice keeps both properties of the string it is cut from. */
  lemma SliceClean(c: string, t: string, j: nat)
    requires j + |t| <= |c| && t == c[j..j + |t|]
    requires forall i :: 0 <= i < |c| ==> !In(Separator, c[i])
    requires forall i :: 0 <= i < |c| - 1 ==> !(c[i] == '_' && c[i + 1] == '_')
    ensures forall i :: 0 <= i < |t| ==> !In(Separator, t[i])
    ensures forall i :: 0 <= i < |t| - 1 ==> !(t[i] == '_' && t[i + 1] == '_')
  {
    forall i | 0 <= i < |t| ensures !In(Separator, t[i]) {
      assert t[i] == c[j + i];
    }
    forall i | 0 <= i < |t| - 1 ensures !(t[i] == '_' && t[i + 1] == '_') {
      assert t[i] == c[j + i] && t[i + 1] == c[j + i + 1];
    }
  }

  /** Stripping '_' keeps both properties and leaves no '_' at either end. */
  lemma StrippedClean(c: string)
    requires forall i :: 0 <= i < |c| ==> !In(Separator, c[i])
    requires forall i :: 0 <= i < |c| - 1 ==> !(c[i] == '_' && c[i + 1] == '_')
    ensures forall i :: 0 <= i < |Strip(c, Underscore)| ==> !In(Separator, Strip(c, Underscore)[i])
    ensures forall i :: 0 <= i < |Strip(c, Underscore)| - 1 ==>
      !(Strip(c, Underscore)[i] == '_' && Strip(c, Underscore)[i + 1] == '_')
    ensures Strip(c, Underscore) == [] || (Strip(c, Underscore)[0] != '_' && Strip(c, Underscore)[|Strip(c, Underscore)| - 1] != '_')
  {
    var j := StripSlice(c, Underscore);
    SliceClean(c, Strip(c, Underscore), j);
  }

  /** Before the final deletion the string has no space, hyphen or dot, no two
      '_' in a row and no '_' at either end. */
  lemma NormStrBeforeDeletion(s: string)
    ensures forall i :: 0 <= i < |Trimmed(s)| ==> !In(Separator, Trimmed(s)[i])
    ensures forall i :: 0 <= i < |Trimmed(s)| - 1 ==> !(Trimmed(s)[i] == '_' && Trimmed(s)[i + 1] == '_')
    ensures Trimmed(s) == [] || (Trimmed(s)[0] != '_' && Trimmed(s)[|Trimmed(s)| - 1] != '_')
  {
    var separated := SubRuns(Lower(Strip(s, Space)), Separator);
    var collapsed := SubRuns(separated, Underscore);
    assert Trimmed(s) == Strip(collapsed, Underscore);
    SeparatedClean(Lower(Strip(s, Space)));
    CollapsedClean(separated);
    StrippedClean(collapsed);
  }

  /** The normalised form of a name: only [a-z0-9_], no "__", no '_' at either
      end. */
  predicate Canonical(t: string)
  {
    && (forall i :: 0 <= i < |t| ==> In(NormChar, t[i]))
    && (forall i :: 0 <= i < |t| - 1 ==> !(t[i] == '_' && t[i + 1] == '_'))
    && (t == [] || (t[0] != '_' && t[|t| - 1] != '_'))
  }

  lemma {:induction false} SubstIdentityAbsent(s: string, k: CharClass, inRun: bool)
    requires forall i :: 0 <= i < |s| ==> !In(k, s[i])
    ensures Subst(s, k, inRun) == s
  {
    if s != [] {
      SubstIdentityAbsent(s[1..], k, false);
    }
  }

  lemma SubRunsIdentityAbsent(s: string, k: CharClass)
    requires forall i :: 0 <= i < |s| ==> !In(k, s[i])
    ensures SubRuns(s, k) == s
  {
    SubstIdentityAbsent(s, k, false);
  }

  /** Collapsing runs of '_' leaves a string without "__" unchanged. */
  lemma {:induction false} CollapseFrom(s: string, inRun: bool)
    requires forall i :: 0 <= i < |s| - 1 ==> !(s[i] == '_' && s[i + 1] == '_')
    requires inRun ==> s == [] || s[0] != '_'
    ensures Subst(s, Underscore, inRun) == s
  {
    if s != [] {
      CollapseFrom(s[1..], s[0] == '_');
    }
  }

  lemma CollapseIdentity(s: string)
    requires forall i :: 0 <= i < |s| - 1 ==> !(s[i] == '_' && s[i + 1] == '_')
    ensures SubRuns(s, Underscore) == s
  {
    CollapseFrom(s, false);
  }

  lemma StripIdentity(s: string, k: CharClass)
    requires s == [] || (!In(k, s[0]) && !In(k, s[|s| - 1]))
    ensures Strip(s, k) == s
  {
  }

  lemma LowerUnchanged(s: string)
    requires forall i :: 0 <= i < |s| ==> !('A' <= s[i] <= 'Z')
    ensures Lower(s) == s
  {
  }

  /** A character of [a-z0-9_] is no whitespace, separator or capital. */
  lemma NormCharFacts(t: string)
    requires forall i :: 0 <= i < |t| ==> In(NormChar, t[i])
    ensures forall i :: 0 <= i < |t| ==> !In(Space, t[i]) && !In(Separator, t[i]) && !('A' <= t[i] <= 'Z')
  {
  }

  /** The first five steps leave a canonical name unchanged. */
  lemma TrimmedFixesCanonical(t: string)
    requires Canonical(t)
    ensures Trimmed(t) == t
  {
    NormCharFacts(t);
    assert t == [] || (!In(Space, t[0]) && !In(Space, t[|t| - 1]));
    StripIdentity(t, Space);
    LowerUnchanged(t);
    SubRunsIdentityAbsent(t, Separator);
    CollapseIdentity(t);
    StripIdentity(t, Underscore);
    assert Trimmed(t) == Strip(SubRuns(SubRuns(Lower(Strip(t, Space)), Separator), Underscore), Underscore);
  }

  /** A canonical name is a fixed point of the normaliser. */
  lemma NormStrFixesCanonical(t: string)
    requires Canonical(t)
    ensures NormStr(t) == t
  {
    TrimmedFixesCanonical(t);
    KeepAll(t, NormChar);
  }

  /** The normaliser read stage by stage. */
  lemma NormStrStages(s: string, lowered: string, separated: string, collapsed: string, trimmed: string, r: string)
    requires Lower(Strip(s, Space)) == lowered
    requires SubRuns(lowered, Separator) == separated
    requires SubRuns(separated, Underscore) == collapsed
    requires Strip(collapsed, Underscore) == trimmed
    requires Keep(trimmed, NormChar) == r
    ensures Trimmed(s) == trimmed && NormStr(s) == r
  {
  }

  // The documented example, one stage per lemma.

  lemma ExampleLowered()
    ensures Lower(Strip("Temperatura (\U{B0}C)", Space)) == "temperatura (\U{B0}c)"
  {
    StripIdentity("Temperatura (\U{B0}C)", Space);
    LowerIs("Temperatura (\U{B0}C)", "temperatura (\U{B0}c)");
  }

  lemma ExampleSeparated(l: string)
    requires l == "temperatura (\U{B0}c)"
    ensures SubRuns(l, Separator) == "temperatura_(\U{B0}c)"
  {
    assert l == "temperatura" + " " + "(\U{B0}c)";
    SubRunsRun("temperatura", " ", "(\U{B0}c)", Separator);
  }

  lemma ExampleKeptTail()
    ensures Keep("c)", NormChar) == "c"
  {
    assert "c)" == "c" + ")" + [];
    KeepDrop("c", ")", [], NormChar);
  }

  lemma ExampleKeptHead()
    ensures Keep("temperatura_(\U{B0}c)", NormChar) == "temperatura_" + Keep("c)", NormChar)
  {
    assert "temperatura_(\U{B0}c)" == "temperatura_" + "(\U{B0}" + "c)";
    KeepDrop("temperatura_", "(\U{B0}", "c)", NormChar);
  }

  lemma ExampleTrimmed()
    ensures Strip(SubRuns("temperatura_(\U{B0}c)", Underscore), Underscore) == "temperatura_(\U{B0}c)"
  {
    CollapseIdentity("temperatura_(\U{B0}c)");
    StripIdentity("temperatura_(\U{B0}c)", Underscore);
  }

  lemma ExampleKept()
    ensures Keep("temperatura_(\U{B0}c)", NormChar) == "temperatura_c"
  {
    ExampleKeptTail();
    ExampleKeptHead();
  }

  /** The documented example: "Temperatura (°C)" normalises to "temperatura_c". */
  lemma NormStrExample()
    ensures NormStr("Temperatura (\U{B0}C)") == "temperatura_c"
  {
    ExampleLowered();
    ExampleSeparated("temperatura (\U{B0}c)");
    ExampleTrimmed();
    ExampleKept();
    NormStrStages("Temperatura (\U{B0}C)", "temperatura (\U{B0}c)", "temperatura_(\U{B0}c)",
                  SubRuns("temperatura_(\U{B0}c)", Underscore), "temperatura_(\U{B0}c)", "temperatura_c");
  }

  lemma TrailingSeparated()
    ensures SubRuns("a (", Separator) == "a_("
  {
    assert "a (" == "a" + " " + "(";
    SubRunsRun("a", " ", "(", Separator);
  }

  lemma TrailingKept()
    ensures Strip(SubRuns("a_(", Underscore), Underscore) == "a_(" && Keep("a_(", NormChar) == "a_"
  {
    CollapseIdentity("a_(");
    StripIdentity("a_(", Underscore);
    assert "a_(" == "a_" + "(" + [];
    KeepDrop("a_", "(", [], NormChar);
  }

  /** '_' is stripped before the other characters are deleted, so a name ending
      in a symbol keeps a trailing '_'. */
  lemma NormStrTrailingUnderscore()
    ensures NormStr("a (") == "a_"
  {
    StripIdentity("a (", Space);
    LowerUnchanged("a (");
    TrailingSeparated();
    TrailingKept();
    NormStrStages("a (", "a (", "a_(", SubRuns("a_(", Underscore), "a_(", "a_");
  }

  lemma DoubleLowered()
    ensures Lower(Strip("a_(_b", Space)) == "a_(_b"
  {
    StripIdentity("a_(_b", Space);
    LowerUnchanged("a_(_b");
  }

  lemma DoubleSeparated()
    ensures SubRuns("a_(_b", Separator) == "a_(_b"
  {
    SubRunsIdentityAbsent("a_(_b", Separator);
  }

  lemma DoubleTrimmed()
    ensures Strip(SubRuns("a_(_b", Underscore), Underscore) == "a_(_b"
  {
    CollapseIdentity("a_(_b");
    StripIdentity("a_(_b", Underscore);
  }

  lemma DoubleKept()
    ensures Keep("a_(_b", NormChar) == "a__b"
  {
    assert "a_(_b" == "a_" + "(" + "_b";
    KeepDrop("a_", "(", "_b", NormChar);
    KeepAll("_b", NormChar);
  }

  /** A symbol between two '_' leaves "__" after the deletion. */
  lemma NormStrDoubleUnderscore()
    ensures NormStr("a_(_b") == "a__b"
  {
    DoubleLowered();
    DoubleSeparated();
    DoubleTrimmed();
    DoubleKept();
    NormStrStages("a_(_b", "a_(_b", "a_(_b", SubRuns("a_(_b", Underscore), "a_(_b", "a__b");
  }

  lemma CollapsedRun()
    ensures SubRuns("a__b", Underscore) == "a_b"
  {
    assert "a__b" == "a" + "__" + "b";
    SubRunsRun("a", "__", "b", Underscore);
  }

  lemma CollapsedLowered()
    ensures Lower(Strip("a__b", Space)) == "a__b"
  {
    StripIdentity("a__b", Space);
    LowerUnchanged("a__b");
  }

  lemma CollapsedKept()
    ensures Strip("a_b", Underscore) == "a_b" && Keep("a_b", NormChar) == "a_b"
  {
    StripIdentity("a_b", Underscore);
    KeepAll("a_b", NormChar);
  }

  lemma CollapsedSeparated()
    ensures SubRuns("a__b", Separator) == "a__b"
  {
    SubRunsIdentityAbsent("a__b", Separator);
  }

  /** Normalising "a__b" collapses the "__". */
  lemma NormStrCollapses()
    ensures NormStr("a__b") == "a_b"
  {
    CollapsedLowered();
    CollapsedSeparated();
    CollapsedRun();
    CollapsedKept();
    NormStrStages("a__b", "a__b", "a__b", "a_b", "a_b", "a_b");
  }

  /** So the normaliser is not idempotent: normalising "a_(_b" twice gives
      "a_b", not "a__b". */
  lemma NormStrNotIdempotent()
    ensures NormStr(NormStr("a_(_b")) == "a_b" != NormStr("a_(_b")
  {
    NormStrDoubleUnderscore();
    NormStrCollapses();
  }

  // ---------------------------------------------------------------------
  // Tables
  // ---------------------------------------------------------------------

  /** A cell: a number or a piece of text. */
  datatype Cell = Num(v: real) | Text(t: string)

  /** A table: its row labels, its column labels and its rows of cells. */
  datatype RawFrame = RawFrame(index: seq<int>, columns: seq<string>, rows: seq<seq<Cell>>)

  /** One label per row, one cell per column in every row, no column label
      repeated. */
  predicate WellFormed(f: RawFrame)
  {
    && |f.index| == |f.rows|
    && (forall i :: 0 <= i < |f.rows| ==> |f.rows[i]| == |f.columns|)
    && Distinct(f.columns)
  }

  type Frame = f: RawFrame | WellFormed(f) witness RawFrame([], [], [])

  /** The `DataFrame` wrapper: the path it was read from and the table, if
      one has been loaded. */
  datatype DataFrame = DataFrame(path: string, df: Option<Frame>)

  /** The cells of column j, top to bottom. */
  function Column(f: Frame, j: nat): (c: seq<Cell>)
    requires j < |f.columns|
    ensures |c| == |f.rows| && forall i :: 0 <= i < |f.rows| ==> c[i] == f.rows[i][j]
  {
    seq(|f.rows|, i requires 0 <= i < |f.rows| => f.rows[i][j])
  }

  // ---------------------------------------------------------------------
  // uarray: pairing value columns with error columns
  // ---------------------------------------------------------------------

  /** `cols_norm`: the normalised names, one per column. */
  function Norms(cols: seq<string>): (ns: seq<string>)
    ensures |ns| == |cols| && forall j :: 0 <= j < |cols| ==> ns[j] == NormStr(cols[j])
  {
    seq(|cols|, j requires 0 <= j < |cols| => NormStr(cols[j]))
  }

  /** `dict(zip(keys, vals))`: each key mapped to its value; a later pair with
      the same key overwrites an earlier one. */
  function ZipMap(keys: seq<string>, vals: seq<string>): (m: map<string, string>)
    requires |keys| == |vals|
    ensures forall k :: k in m ==> m[k] in vals
  {
    if keys == [] then map[]
    else ZipMap(keys[..|keys| - 1], vals[..|vals| - 1])[keys[|keys| - 1] := vals[|vals| - 1]]
  }

  /** A key is present exactly when it occurs among the keys. */
  lemma {:induction false} ZipMapKeys(keys: seq<string>, vals: seq<string>, k: string)
    requires |keys| == |vals|
    ensures k in ZipMap(keys, vals) <==> k in keys
  {
    if keys != [] {
      var n := |keys| - 1;
      ZipMapKeys(keys[..n], vals[..n], k);
      assert keys == keys[..n] + [keys[n]];
    }
  }

  /** The value stored under keys[j] is vals[j] when no later key equals it:
      the last pair wins. */
  lemma {:induction false} ZipMapLast(keys: seq<string>, vals: seq<string>, j: nat)
    requires |keys| == |vals| && j < |keys|
    requires forall l :: j < l < |keys| ==> keys[l] != keys[j]
    ensures keys[j] in ZipMap(keys, vals) && ZipMap(keys, vals)[keys[j]] == vals[j]
  {
    var n := |keys| - 1;
    var pk, pv := keys[..n], vals[..n];
    assert ZipMap(keys, vals) == ZipMap(pk, pv)[keys[n] := vals[n]];
    if j < n {
      assert keys[j] != keys[n];
      assert pk[j] == keys[j] && pv[j] == vals[j];
      forall l | j < l < n
        ensures pk[l] != pk[j]
      {
        assert pk[l] == keys[l];
      }
      ZipMapLast(pk, pv, j);
    }
  }

  /** The error column's normalised name for a value column: `norm_err` as a
      suffix or `err_norm` as a prefix. The identifier itself is not
      normalised. */
  function Target(str_: string, caso: string, norm: string): string
  {
    if caso == "sufijo" then norm + "_" + str_ else str_ + "_" + norm
  }

  /** `unp.uarray(valores, errores)`: a value column beside its error column. */
  datatype UColumn = UColumn(values: seq<Cell>, errors: seq<Cell>)

  /** The column named `name`. */
  function ColumnNamed(f: Frame, name: string): (c: seq<Cell>)
    requires name in f.columns
    ensures |c| == |f.rows|
  {
    Column(f, IndexOf(f.columns, name))
  }

  /** The entries `uarray` adds for columns 0 .. i-1, in column order, given
      the normalised names `norms` of the columns. */
  function Entries(f: Frame, norms: seq<string>, str_: string, caso: string, i: nat): seq<(string, UColumn)>
    requires |norms| == |f.columns| && i <= |f.columns|
  {
    if i == 0 then []
    else
      var n2o := ZipMap(norms, f.columns);
      var t := Target(str_, caso, norms[i - 1]);
      Entries(f, norms, str_, caso, i - 1)
      + (if t in n2o then [(f.columns[i - 1], UColumn(Column(f, i - 1), ColumnNamed(f, n2o[t])))] else [])
  }

  /** `uarray`: no table gives NoData, a `caso` other than "sufijo" or
      "prefijo" gives InvalidCase, otherwise the paired columns. */
  function UArraySpec(d: DataFrame, str_: string, caso: string): Result<seq<(string, UColumn)>, Error>
  {
    if d.df.None? then Err(NoData)
    else if caso != "sufijo" && caso != "prefijo" then Err(InvalidCase)
    else
      var f := d.df.value;
      Ok(Entries(f, Norms(f.columns), str_, caso, |f.columns|))
  }

  /** The loop of `uarray`: for each column, in order, look up its target
      name among the normalised names and pair the two columns. */
  method PairColumns(f: Frame, norms: seq<string>, str_: string, caso: string) returns (arrays: seq<(string, UColumn)>)
    requires |norms| == |f.columns|
    ensures arrays == Entries(f, norms, str_, caso, |f.columns|)
  {
    var normToOrig := ZipMap(norms, f.columns);
    arrays := [];
    for i := 0 to |f.columns|
      invariant arrays == Entries(f, norms, str_, caso, i)
    {
      var targetNorm := Target(str_, caso, norms[i]);
      if targetNorm in normToOrig {
        var valores := Column(f, i);
        var errores := ColumnNamed(f, normToOrig[targetNorm]);
        arrays := arrays + [(f.columns[i], UColumn(valores, errores))];
      }
      assert arrays == Entries(f, norms, str_, caso, i + 1);
    }
  }

  /** `uarray`: checks its arguments, normalises the column names once and
      pairs the columns. */
  method UArray(d: DataFrame, str_: string, caso: string) returns (r: Result<seq<(string, UColumn)>, Error>)
    ensures r == UArraySpec(d, str_, caso)
    ensures r.Err? ==> ExceptionClassOf(r.error) == ValueError
  {
    if d.df.None? {
      return Err(NoData);
    }
    if caso != "sufijo" && caso != "prefijo" {
      return Err(InvalidCase);
    }
    var f := d.df.value;
    var arrays := PairColumns(f, Norms(f.columns), str_, caso);
    return Ok(arrays);
  }

  /** Column j gets an entry exactly when its target name is among the
      normalised names. */
  lemma {:induction false} EntriesChar(f: Frame, norms: seq<string>, str_: string, caso: string, i: nat, c: string)
    requires |norms| == |f.columns| && i <= |f.columns|
    ensures (exists k :: 0 <= k < |Entries(f, norms, str_, caso, i)| && Entries(f, norms, str_, caso, i)[k].0 == c) <==>
      exists j :: 0 <= j < i && f.columns[j] == c && Target(str_, caso, norms[j]) in norms
  {
    if i > 0 {
      EntriesChar(f, norms, str_, caso, i - 1, c);
      ZipMapKeys(norms, f.columns, Target(str_, caso, norms[i - 1]));
      var es := Entries(f, norms, str_, caso, i);
      var prev := Entries(f, norms, str_, caso, i - 1);
      assert forall k :: 0 <= k < |prev| ==> es[k] == prev[k];
      if exists k :: 0 <= k < |es| && es[k].0 == c {
        var k :| 0 <= k < |es| && es[k].0 == c;
        if k >= |prev| {
          assert c == f.columns[i - 1];
        }
      }
      var t := Target(str_, caso, norms[i - 1]);
      if f.columns[i - 1] == c && t in norms {
        assert es[|prev|].0 == c;
      }
    }
  }

  /** Entry k comes from some column j whose target name is a key of the
      map, and pairs column j's cells with those of the column that map
      gives for the target. */
  lemma {:induction false} EntriesValue(f: Frame, norms: seq<string>, str_: string, caso: string, i: nat, k: nat)
    requires |norms| == |f.columns| && i <= |f.columns|
    requires k < |Entries(f, norms, str_, caso, i)|
    ensures exists j :: 0 <= j < i && Paired(f, norms, str_, caso, j, Entries(f, norms, str_, caso, i)[k])
  {
    var prev := Entries(f, norms, str_, caso, i - 1);
    if k < |prev| {
      EntriesValue(f, norms, str_, caso, i - 1, k);
      var j :| 0 <= j < i - 1 && Paired(f, norms, str_, caso, j, prev[k]);
      assert Entries(f, norms, str_, caso, i)[k] == prev[k];
    } else {
      assert Paired(f, norms, str_, caso, i - 1, Entries(f, norms, str_, caso, i)[k]);
    }
  }

  /** Entry e is the one column j produces: j's name, j's cells as values
      and, as errors, the cells of the column the target name maps to. */
  predicate Paired(f: Frame, norms: seq<string>, str_: string, caso: string, j: nat, e: (string, UColumn))
    requires |norms| == |f.columns| && j < |f.columns|
  {
    var n2o := ZipMap(norms, f.columns);
    var t := Target(str_, caso, norms[j]);
    t in n2o && e == (f.columns[j], UColumn(Column(f, j), ColumnNamed(f, n2o[t])))
  }

  /** The entries come from distinct columns in column order, so their names
      are distinct: the result is a dictionary keyed by column name. */
  lemma {:induction false} EntriesKeysDistinct(f: Frame, norms: seq<string>, str_: string, caso: string, i: nat)
    requires |norms| == |f.columns| && i <= |f.columns|
    ensures forall a, b :: 0 <= a < b < |Entries(f, norms, str_, caso, i)| ==>
      Entries(f, norms, str_, caso, i)[a].0 != Entries(f, norms, str_, caso, i)[b].0
  {
    if i > 0 {
      EntriesKeysDistinct(f, norms, str_, caso, i - 1);
      var es := Entries(f, norms, str_, caso, i);
      var prev := Entries(f, norms, str_, caso, i - 1);
      forall a, b | 0 <= a < b < |es|
        ensures es[a].0 != es[b].0
      {
        if b >= |prev| {
          EntriesValue(f, norms, str_, caso, i - 1, a);
          var j :| 0 <= j < i - 1 && Paired(f, norms, str_, caso, j, prev[a]);
          assert es[a] == prev[a] && es[b].0 == f.columns[i - 1];
        } else {
          assert es[a] == prev[a] && es[b] == prev[b];
        }
      }
    }
  }

  /** The value under a key of `dict(zip(keys, vals))` is the value paired
      with the key's last occurrence. */
  lemma {:induction false} ZipMapLastWins(keys: seq<string>, vals: seq<string>, k: string)
    requires |keys| == |vals| && k in keys
    ensures k in ZipMap(keys, vals)
    ensures exists l :: LastOccurrence(keys, k, l) && ZipMap(keys, vals)[k] == vals[l]
  {
    ZipMapKeys(keys, vals, k);
    var n := |keys| - 1;
    if keys[n] == k {
      assert ZipMap(keys, vals)[k] == vals[n] && LastOccurrence(keys, k, n);
    } else {
      assert keys == keys[..n] + [keys[n]];
      ZipMapLastWins(keys[..n], vals[..n], k);
      var l :| LastOccurrence(keys[..n], k, l) && ZipMap(keys[..n], vals[..n])[k] == vals[..n][l];
      assert keys[l] == k && ZipMap(keys, vals)[k] == vals[l];
      forall l' | l < l' < |keys|
        ensures keys[l'] != k
      {
        if l' < n {
          assert keys[..n][l'] == keys[l'];
        }
      }
      assert LastOccurrence(keys, k, l);
    }
  }

  /** Position l holds k and no later position does. */
  predicate LastOccurrence(keys: seq<string>, k: string, l: int)
  {
    0 <= l < |keys| && keys[l] == k && forall l' :: l < l' < |keys| ==> keys[l'] != k
  }

  /** Column l is the last column whose normalised name is t. */
  predicate LastNormalisedAs(cols: seq<string>, t: string, l: int)
  {
    0 <= l < |cols| && NormStr(cols[l]) == t && forall l' :: l < l' < |cols| ==> NormStr(cols[l']) != t
  }

  /** `uarray` has an entry for column c exactly when c is a column and its
      target name is among the normalised column names. */
  lemma UArrayKeys(d: DataFrame, str_: string, caso: string, c: string)
    requires UArraySpec(d, str_, caso).Ok?
    ensures var es := UArraySpec(d, str_, caso).value;
      (exists k :: 0 <= k < |es| && es[k].0 == c) <==>
      c in d.df.value.columns && Target(str_, caso, NormStr(c)) in Norms(d.df.value.columns)
  {
    var f := d.df.value;
    var norms := Norms(f.columns);
    var es := Entries(f, norms, str_, caso, |f.columns|);
    assert UArraySpec(d, str_, caso).value == es;
    EntriesChar(f, norms, str_, caso, |f.columns|, c);
    var t := Target(str_, caso, NormStr(c));
    if exists k :: 0 <= k < |es| && es[k].0 == c {
      var j :| 0 <= j < |f.columns| && f.columns[j] == c && Target(str_, caso, norms[j]) in norms;
      assert norms[j] == NormStr(c);
    }
    if c in f.columns && t in norms {
      var j := IndexOf(f.columns, c);
      assert norms[j] == NormStr(c);
      assert 0 <= j < |f.columns| && f.columns[j] == c && Target(str_, caso, norms[j]) in norms;
    }
  }

  /** Each entry of `uarray` is named after a column, holds that column's
      cells as values and, as errors, the cells of the last column whose
      normalised name is the target name; no two entries share a name. */
  lemma UArrayEntry(d: DataFrame, str_: string, caso: string, k: nat)
    requires UArraySpec(d, str_, caso).Ok? && k < |UArraySpec(d, str_, caso).value|
    ensures var f := d.df.value; var e := UArraySpec(d, str_, caso).value[k];
      e.0 in f.columns && e.1.values == ColumnNamed(f, e.0) &&
      exists l :: LastNormalisedAs(f.columns, Target(str_, caso, NormStr(e.0)), l) && e.1.errors == Column(f, l)
    ensures var es := UArraySpec(d, str_, caso).value;
      forall b :: 0 <= b < |es| && b != k ==> es[b].0 != es[k].0
  {
    var f := d.df.value;
    var norms := Norms(f.columns);
    var es := Entries(f, norms, str_, caso, |f.columns|);
    EntriesValue(f, norms, str_, caso, |f.columns|, k);
    EntriesKeysDistinct(f, norms, str_, caso, |f.columns|);
    var j :| 0 <= j < |f.columns| && Paired(f, norms, str_, caso, j, es[k]);
    IndexOfDistinct(f.columns, j);
    var t := Target(str_, caso, norms[j]);
    ZipMapKeys(norms, f.columns, t);
    ZipMapLastWins(norms, f.columns, t);
    var l :| LastOccurrence(norms, t, l) && ZipMap(norms, f.columns)[t] == f.columns[l];
    IndexOfDistinct(f.columns, l);
    assert LastNormalisedAs(f.columns, t, l);
  }

  /** A column whose target name is not among the normalised names adds
      no entry. */
  lemma EntriesSkip(f: Frame, norms: seq<string>, str_: string, caso: string, i: nat)
    requires |norms| == |f.columns| && 0 < i <= |f.columns|
    requires Target(str_, caso, norms[i - 1]) !in norms
    ensures Entries(f, norms, str_, caso, i) == Entries(f, norms, str_, caso, i - 1)
  {
    ZipMapKeys(norms, f.columns, Target(str_, caso, norms[i - 1]));
  }

  /** The column names of the example are canonical, so each normalises to
      itself. */
  lemma ExampleName(k: string)
    requires k == "x" || k == "y" || k == "z" || k == "z_err"
    ensures NormStr(k) == k
  {
    assert Canonical(k);
    NormStrFixesCanonical(k);
  }

  /** Names that normalise to themselves are their own normalised list. */
  lemma NormsFixed(cols: seq<string>)
    requires forall j :: 0 <= j < |cols| ==> NormStr(cols[j]) == cols[j]
    ensures Norms(cols) == cols
  {
  }

  /** The column names x, y, z_err and z are already normalised. */
  lemma ExampleNorms(cols: seq<string>)
    requires cols == ["x", "y", "z_err", "z"]
    ensures Norms(cols) == cols
  {
    forall j | 0 <= j < |cols|
      ensures NormStr(cols[j]) == cols[j]
    {
      ExampleName(cols[j]);
    }
    NormsFixed(cols);
  }

  /** Over x, y, z_err and z with identifier "err" as a suffix, only z has an
      error column: the entry for z pairs column z with column z_err. */
  lemma ExamplePairs(f: Frame)
    requires f.columns == ["x", "y", "z_err", "z"]
    ensures Entries(f, f.columns, "err", "sufijo", 4) == [("z", UColumn(Column(f, 3), Column(f, 2)))]
  {
    var cols := f.columns;
    assert Target("err", "sufijo", cols[0]) == "x_err" && "x_err" !in cols;
    EntriesSkip(f, cols, "err", "sufijo", 1);
    assert Target("err", "sufijo", cols[1]) == "y_err" && "y_err" !in cols;
    EntriesSkip(f, cols, "err", "sufijo", 2);
    assert Target("err", "sufijo", cols[2]) == "z_err_err" && "z_err_err" !in cols;
    EntriesSkip(f, cols, "err", "sufijo", 3);
    assert Target("err", "sufijo", cols[3]) == "z_err" == cols[2];
    ZipMapLast(cols, cols, 2);
    assert IndexOf(cols, "z_err") == 2;
  }

  /** `uarray(str_="err", caso="sufijo")` on a table with columns x, y, z_err
      and z returns just z, with values from z and errors from z_err. */
  lemma UArraySuffixExample(path: string, f: Frame)
    requires f.columns == ["x", "y", "z_err", "z"]
    ensures UArraySpec(DataFrame(path, Some(f)), "err", "sufijo") == Ok([("z", UColumn(Column(f, 3), Column(f, 2)))])
  {
    ExampleNorms(f.columns);
    ExamplePairs(f);
  }

  // ----- filtrar: the boolean-Series branch -----

  /** A filtering condition: a pandas Series (its labels and values; a
      boolean dtype or some other dtype) or a value of any other kind. Query
      strings and callables are not part of this model. */
  datatype Condition =
    | BoolSeries(labels: seq<int>, flags: seq<bool>)
    | NonBoolSeries
    | OtherCondition

  /** A Series has one value per label. */
  type ValidCondition = c: Condition | c.BoolSeries? ==> |c.labels| == |c.flags| witness OtherCondition

  /** `mask.reindex(index, fill_value=fill)` on a mask with distinct labels:
      the value at each label of `index`, or `fill` where the mask has no such
      label. */
  function Reindex(labels: seq<int>, flags: seq<bool>, index: seq<int>, fill: bool): (m: seq<bool>)
    requires |labels| == |flags|
    ensures |m| == |index|
  {
    seq(|index|, i requires 0 <= i < |index| =>
      if index[i] in labels then flags[IndexOf(labels, index[i])] else fill)
  }

  /** `df.loc[mask]`: the rows whose mask value is true, with their labels,
      in their original order. */
  function SelectRows(f: Frame, keep: seq<bool>): (g: Frame)
    requires |keep| == |f.rows|
    ensures g.columns == f.columns
  {
    SelectAt(f.rows, keep);
    RawFrame(Select(f.index, keep), f.columns, Select(f.rows, keep))
  }

  /** `filtrar` with a Series or an unsupported condition: no table gives
      NoData; a value that is not a Series gives InvalidCondition; a Series
      whose dtype is not boolean gives NonBooleanMask; a mask on the table's
      own index selects directly; any other mask is first reindexed onto the
      table's index, filling missing labels with `preservar`, which pandas
      refuses when the mask repeats a label. The path is kept. */
  function Filtrar(d: DataFrame, cond: ValidCondition, preservar: bool): (r: Result<DataFrame, Error>)
    ensures r.Ok? ==> d.df.Some? && r.value.path == d.path && r.value.df.Some? &&
                      r.value.df.value.columns == d.df.value.columns
    ensures r.Err? ==> ExceptionClassOf(r.error) == ValueError
    ensures r.Err? <==>
      (d.df.None? || !cond.BoolSeries? ||
       (cond.labels != d.df.value.index && exists a, b :: 0 <= a < b < |cond.labels| && cond.labels[a] == cond.labels[b]))
  {
    if d.df.None? then Err(NoData)
    else if cond.OtherCondition? then Err(InvalidCondition)
    else if cond.NonBoolSeries? then Err(NonBooleanMask)
    else
      var f := d.df.value;
      if cond.labels == f.index then Ok(DataFrame(d.path, Some(SelectRows(f, cond.flags))))
      else if !Distinct(cond.labels) then Err(DuplicateMaskLabels)
      else Ok(DataFrame(d.path, Some(SelectRows(f, Reindex(cond.labels, cond.flags, f.index, preservar)))))
  }

  /** The mask `filtrar` applies to the table's rows, once aligned. */
  function AlignedMask(f: Frame, labels: seq<int>, flags: seq<bool>, preservar: bool): (m: seq<bool>)
    requires |labels| == |flags|
    ensures |m| == |f.rows|
  {
    if labels == f.index then flags else Reindex(labels, flags, f.index, preservar)
  }

  /** A successful boolean filter keeps exactly row i of the table when the
      aligned mask is true there: the kept rows and their labels are those
      rows, in their original order. With distinct mask labels, the aligned
      value at row i is the mask's value for the row's label, or
      `preservar` when the mask has no such label. */
  lemma FiltrarRows(d: DataFrame, labels: seq<int>, flags: seq<bool>, preservar: bool)
    requires |labels| == |flags|
    requires Filtrar(d, BoolSeries(labels, flags), preservar).Ok?
    ensures var f := d.df.value; var g := Filtrar(d, BoolSeries(labels, flags), preservar).value.df.value;
      var m := AlignedMask(f, labels, flags, preservar);
      && g.rows == Select(f.rows, m) && g.index == Select(f.index, m)
      && (forall k :: 0 <= k < |g.rows| ==>
            var i := TruePositions(m)[k]; m[i] && g.rows[k] == f.rows[i] && g.index[k] == f.index[i])
      && (forall i :: 0 <= i < |f.rows| && m[i] ==> f.rows[i] in g.rows)
      && (labels != f.index ==> forall i :: 0 <= i < |f.rows| ==>
            m[i] == if f.index[i] in labels then flags[IndexOf(labels, f.index[i])] else preservar)
  {
    var f := d.df.value;
    var m := AlignedMask(f, labels, flags, preservar);
    SelectAt(f.rows, m);
    SelectAt(f.index, m);
    forall i | 0 <= i < |f.rows| && m[i]
      ensures f.rows[i] in Select(f.rows, m)
    {
      SelectMembership(f.rows, m, f.rows[i]);
    }
  }

  /** A reindexed mask that mentions none of the table's labels keeps every
      row when `preservar` holds and drops every row otherwise. */
  lemma FiltrarNoLabelsMatch(d: DataFrame, labels: seq<int>, flags: seq<bool>, preservar: bool)
    requires |labels| == |flags|
    requires Filtrar(d, BoolSeries(labels, flags), preservar).Ok?
    requires labels != d.df.value.index
    requires forall i :: 0 <= i < |d.df.value.index| ==> d.df.value.index[i] !in labels
    ensures var g := Filtrar(d, BoolSeries(labels, flags), preservar).value.df.value;
      g == if preservar then d.df.value else RawFrame([], d.df.value.columns, [])
  {
    var f := d.df.value;
    var m := AlignedMask(f, labels, flags, preservar);
    if preservar {
      SelectAllTrue(f.rows, m);
      SelectAllTrue(f.index, m);
    } else {
      SelectNoneTrue(f.rows, m);
      SelectNoneTrue(f.index, m);
    }
  }

  /** The table of the tests, columns x, y and z_err over the index
      [0, 1, 2], filtered by the mask [True, False, True] on that same index:
      the rows labelled 0 and 2 remain, with all their cells. */
  lemma FiltrarSeriesExample(path: string)
    ensures var r0, r1, r2 := [Num(1.0), Num(4.0), Num(0.1)], [Num(2.0), Num(5.0), Num(0.2)], [Num(3.0), Num(6.0), Num(0.3)];
      var f := RawFrame([0, 1, 2], ["x", "y", "z_err"], [r0, r1, r2]);
      && WellFormed(f)
      && var r := Filtrar(DataFrame(path, Some(f)), BoolSeries([0, 1, 2], [true, false, true]), true);
      && r.Ok? && r.value.df.value.index == [0, 2] && r.value.df.value.rows == [r0, r2]
      && r.value.df.value.columns == ["x", "y", "z_err"]
  {
    var r0, r1, r2 := [Num(1.0), Num(4.0), Num(0.1)], [Num(2.0), Num(5.0), Num(0.2)], [Num(3.0), Num(6.0), Num(0.3)];
    var cols := ["x", "y", "z_err"];
    assert Distinct(cols) by {
      assert cols[0] != cols[1] && cols[0] != cols[2] && cols[1] != cols[2] by {
        assert cols[0][0] == 'x' && cols[1][0] == 'y' && cols[2][0] == 'z';
      }
    }
    var m := [true, false, true];
    assert Select([0, 1, 2], m) == [0] + Select([1, 2], m[1..]);
    assert Select([1, 2], m[1..]) == Select([2], m[2..]);
    assert Select([r0, r1, r2], m) == [r0] + Select([r1, r2], m[1..]);
    assert Select([r1, r2], m[1..]) == Select([r2], m[2..]);
  }

  // ----- separar_c_f -----

  /** The cells grouped column by column: item j is column j. */
  function ByColumns(f: Frame): (cs: seq<seq<Cell>>)
    ensures |cs| == |f.columns|
    ensures forall j :: 0 <= j < |cs| ==> |cs[j]| == |f.rows| && forall i :: 0 <= i < |f.rows| ==> cs[j][i] == f.rows[i][j]
  {
    seq(|f.columns|, j requires 0 <= j < |f.columns| => Column(f, j))
  }

  /** A matrix of `width` columns read row by row: item i holds entry i of
      every column. */
  function RowsOf(cs: seq<seq<Cell>>, height: nat): (rs: seq<seq<Cell>>)
    requires forall j :: 0 <= j < |cs| ==> |cs[j]| == height
    ensures |rs| == height && forall i :: 0 <= i < height ==> |rs[i]| == |cs| && forall j :: 0 <= j < |cs| ==> rs[i][j] == cs[j][i]
  {
    seq(height, i requires 0 <= i < height => seq(|cs|, j requires 0 <= j < |cs| => cs[j][i]))
  }

  /** `separar_c_f`: no table gives NoData, a `caso` other than "f" or "c"
      gives InvalidCase, "f" gives the rows and "c" the columns. */
  function SepararCF(d: DataFrame, caso: string): (r: Result<seq<seq<Cell>>, Error>)
    ensures r.Err? <==> d.df.None? || (caso != "f" && caso != "c")
    ensures r.Err? ==> ExceptionClassOf(r.error) == ValueError
    ensures r.Ok? && caso == "f" ==>
      (|r.value| == |d.df.value.rows| &&
       forall i :: 0 <= i < |r.value| ==>
         (|r.value[i]| == |d.df.value.columns| &&
          forall j :: 0 <= j < |d.df.value.columns| ==> r.value[i][j] == d.df.value.rows[i][j]))
    ensures r.Ok? && caso == "c" ==>
      (|r.value| == |d.df.value.columns| &&
       forall j :: 0 <= j < |r.value| ==>
         (|r.value[j]| == |d.df.value.rows| &&
          forall i :: 0 <= i < |d.df.value.rows| ==> r.value[j][i] == d.df.value.rows[i][j]))
  {
    if d.df.None? then Err(NoData)
    else if caso != "f" && caso != "c" then Err(InvalidCase)
    else if caso == "f" then Ok(d.df.value.rows)
    else Ok(ByColumns(d.df.value))
  }

  /** Reading the columns back row by row gives the rows: the two cases of
      `separar_c_f` are transposes of each other. */
  lemma SepararTranspose(d: DataFrame)
    requires d.df.Some?
    ensures SepararCF(d, "c").Ok? && SepararCF(d, "f").Ok?
    ensures RowsOf(SepararCF(d, "c").value, |d.df.value.rows|) == SepararCF(d, "f").value
  {
    var f := d.df.value;
    var rs := RowsOf(SepararCF(d, "c").value, |f.rows|);
    forall i | 0 <= i < |f.rows|
      ensures rs[i] == f.rows[i]
    {
    }
  }

  // ----- grilla_y_grad: the grid -----

  /** `np.linspace(a, b, n)`: n evenly spaced values from a to b, both
      included; a single value is a. */
  function Linspace(a: real, b: real, n: nat): (xs: seq<real>)
    ensures |xs| == n
    ensures n >= 1 ==> xs[0] == a
    ensures n >= 2 ==> xs[n - 1] == b
  {
    if n == 1 then [a]
    else
      var xs := seq(n, k requires 0 <= k < n => a + (k as real) * (b - a) / ((n - 1) as real));
      assert n >= 2 ==> xs[n - 1] == a + ((n - 1) as real) * (b - a) / ((n - 1) as real) == b;
      xs
  }

  /** A coordinate grid: X holds each point's column coordinate, Y its row
      coordinate, one row of points per row of the table. */
  datatype Grid = Grid(x: seq<seq<real>>, y: seq<seq<real>>)

  /** `np.meshgrid(xs, ys)`: |ys| rows of |xs| points; X repeats xs in every
      row and Y repeats ys[i] along row i. */
  function Meshgrid(xs: seq<real>, ys: seq<real>): (g: Grid)
    ensures |g.x| == |g.y| == |ys|
    ensures forall i :: 0 <= i < |ys| ==> |g.x[i]| == |g.y[i]| == |xs|
    ensures forall i, j :: 0 <= i < |ys| && 0 <= j < |xs| ==> g.x[i][j] == xs[j] && g.y[i][j] == ys[i]
  {
    Grid(seq(|ys|, i requires 0 <= i < |ys| => xs),
         seq(|ys|, i requires 0 <= i < |ys| => seq(|xs|, j requires 0 <= j < |xs| => ys[i])))
  }

  /** The coordinate ranges of `grilla_y_grad`: from -(n-1)/2 to (n-1)/2
      when centred, from 0 to n-1 otherwise. */
  function Range(n: nat, centrar: bool): (xs: seq<real>)
    ensures |xs| == n
  {
    var h := ((n as real) - 1.0) / 2.0;
    if centrar then Linspace(-h, h, n) else Linspace(0.0, (n as real) - 1.0, n)
  }

  /** Every cell of the table is a number. */
  predicate AllNumeric(f: Frame)
  {
    forall i, j :: 0 <= i < |f.rows| && 0 <= j < |f.rows[i]| ==> f.rows[i][j].Num?
  }

  /** `grilla_y_grad`: no table gives NoData; otherwise a grid with one point
      per cell of the table. With `grad`, `np.gradient` of the table's values
      decides the outcome axis by axis: fewer than two rows raise ValueError,
      then differences along the rows that meet a text cell raise TypeError,
      then fewer than two columns raise ValueError. */
  function GrillaYGrad(d: DataFrame, centrar: bool, grad: bool): (r: Result<Grid, Error>)
    ensures r.Err? <==>
      (d.df.None? || (grad && (|d.df.value.rows| < 2 || |d.df.value.columns| < 2 || !AllNumeric(d.df.value))))
    ensures !grad ==> (r.Err? <==> d.df.None?)
    ensures r.Err? ==> (ExceptionClassOf(r.error) == TypeError <==>
      d.df.Some? && grad && |d.df.value.rows| >= 2 && !AllNumeric(d.df.value))
    ensures r.Err? ==> ExceptionClassOf(r.error) == ValueError || ExceptionClassOf(r.error) == TypeError
  {
    if d.df.None? then Err(NoData)
    else
      var f := d.df.value;
      var nf := |f.rows|;
      var nc := |f.columns|;
      if grad && nf < 2 then Err(GradientTooSmall)
      else if grad && !AllNumeric(f) then Err(NonNumericGradient)
      else if grad && nc < 2 then Err(GradientTooSmall)
      else Ok(Meshgrid(Range(nc, centrar), Range(nf, centrar)))
  }

  /** Point k of a range sits at k - (n-1)/2 when centred and at k
      otherwise. */
  lemma {:induction false} RangeAt(n: nat, centrar: bool, k: nat)
    requires k < n
    ensures Range(n, centrar)[k] == if centrar then (k as real) - ((n as real) - 1.0) / 2.0 else k as real
  {
    if n >= 2 {
      var m := (n - 1) as real;
      var h := ((n as real) - 1.0) / 2.0;
      var a := if centrar then -h else 0.0;
      var b := if centrar then h else (n as real) - 1.0;
      assert b - a == m;
      assert (k as real) * m / m == k as real;
    }
  }

  /** The grid has the table's shape (rows by columns); with `centrar`
      X[i][j] = j - (n_c-1)/2 and Y[i][j] = i - (n_f-1)/2, otherwise
      X[i][j] = j and Y[i][j] = i. */
  lemma GrillaCoordinates(d: DataFrame, centrar: bool, grad: bool, i: nat, j: nat)
    requires GrillaYGrad(d, centrar, grad).Ok?
    requires d.df.Some? && i < |d.df.value.rows| && j < |d.df.value.columns|
    ensures var g := GrillaYGrad(d, centrar, grad).value;
      var nf := |d.df.value.rows|; var nc := |d.df.value.columns|;
      && |g.x| == |g.y| == nf && |g.x[i]| == |g.y[i]| == nc
      && g.x[i][j] == (if centrar then (j as real) - ((nc as real) - 1.0) / 2.0 else j as real)
      && g.y[i][j] == (if centrar then (i as real) - ((nf as real) - 1.0) / 2.0 else i as real)
  {
    RangeAt(|d.df.value.columns|, centrar, j);
    RangeAt(|d.df.value.rows|, centrar, i);
  }

  /** A centred grid is symmetric about the origin: mirrored points have
      opposite coordinates. */
  lemma GrillaCentredSymmetric(d: DataFrame, grad: bool, i: nat, j: nat)
    requires GrillaYGrad(d, true, grad).Ok?
    requires d.df.Some? && i < |d.df.value.rows| && j < |d.df.value.columns|
    ensures var g := GrillaYGrad(d, true, grad).value;
      var nf := |d.df.value.rows|; var nc := |d.df.value.columns|;
      g.x[i][j] == -g.x[i][nc - 1 - j] && g.y[i][j] == -g.y[nf - 1 - i][j]
  {
    GrillaCoordinates(d, true, grad, i, j);
    GrillaCoordinates(d, true, grad, i, |d.df.value.columns| - 1 - j);
    GrillaCoordinates(d, true, grad, |d.df.value.rows| - 1 - i, j);
  }
}
