/** The text normaliser (`clean_text`) and the record builder
    (`preprocess_data`) of `DATAPREPROCESSING`. */
module Preprocessing {
  import opened Common

  // ---------------------------------------------------------------------------
  // clean_text
  // ---------------------------------------------------------------------------

  /** One `re.sub(pattern + '+', ' ', s)`: every maximal run of characters
      satisfying `p` becomes a single ' '. `inRun` says that the character
      just before `s` belonged to a run that has already been replaced. */
  function Squeeze(p: char -> bool, s: string, inRun: bool): string
  {
    if s == [] then []
    else if p(s[0]) then (if inRun then [] else " ") + Squeeze(p, s[1..], true)
    else [s[0]] + Squeeze(p, s[1..], false)
  }

  /** The number of whitespace characters at the start of `s`. */
  function LeadingSpaces(s: string): (k: nat)
    ensures k <= |s|
    ensures forall i :: 0 <= i < k ==> IsSpace(s[i])
    ensures k < |s| ==> !IsSpace(s[k])
  {
    if s != [] && IsSpace(s[0]) then 1 + LeadingSpaces(s[1..]) else 0
  }

  /** The number of whitespace characters at the end of `s`. */
  function TrailingSpaces(s: string): (k: nat)
    ensures k <= |s|
    ensures forall i :: |s| - k <= i < |s| ==> IsSpace(s[i])
    ensures k < |s| ==> !IsSpace(s[|s| - 1 - k])
  {
    if s != [] && IsSpace(s[|s| - 1]) then 1 + TrailingSpaces(s[..|s| - 1]) else 0
  }

  /** `str.lstrip()`. */
  function TrimStart(s: string): string
  {
    s[LeadingSpaces(s)..]
  }

  /** `str.rstrip()`. */
  function TrimEnd(s: string): string
  {
    s[..|s| - TrailingSpaces(s)]
  }

  function Strip(s: string): string
  {
    TrimEnd(TrimStart(s))
  }

  /** `clean_text`: line breaks and tabs to spaces, whitespace runs to one
      space, then strip both ends. */
  function CleanText(s: string): string
  {
    Strip(Squeeze(IsSpace, Squeeze(IsBreakOrTab, s, false), false))
  }

  /** The non-whitespace characters of `s`, in order. */
  function NonSpace(s: string): string
  {
    if s == [] then [] else (if IsSpace(s[0]) then [] else [s[0]]) + NonSpace(s[1..])
  }

  /** Every whitespace character is a plain ' ', and no two are adjacent. */
  predicate SingleSpaced(t: string)
  {
    && (forall i :: 0 <= i < |t| && IsSpace(t[i]) ==> t[i] == ' ')
    && (forall i :: 0 < i < |t| && IsSpace(t[i]) ==> !IsSpace(t[i - 1]))
  }

  /** Neither end is whitespace. */
  predicate Trimmed(t: string)
  {
    t == [] || (!IsSpace(t[0]) && !IsSpace(t[|t| - 1]))
  }

  /** The form every output of `clean_text` has. */
  predicate Canonical(t: string)
  {
    SingleSpaced(t) && Trimmed(t)
  }

  lemma {:induction false} NonSpaceAppend(a: string, b: string)
    ensures NonSpace(a + b) == NonSpace(a) + NonSpace(b)
  {
    if a == [] {
      assert a + b == b;
    } else {
      assert (a + b)[1..] == a[1..] + b;
      NonSpaceAppend(a[1..], b);
    }
  }

  lemma {:induction false} NonSpaceEmptyIff(s: string)
    ensures NonSpace(s) == [] <==> forall i :: 0 <= i < |s| ==> IsSpace(s[i])
  {
    if s != [] {
      NonSpaceEmptyIff(s[1..]);
      assert forall i :: 1 <= i < |s| ==> s[i] == s[1..][i - 1];
    }
  }

  lemma {:induction false} SqueezeKeepsNonSpace(p: char -> bool, s: string, inRun: bool)
    requires forall c :: p(c) ==> IsSpace(c)
    ensures NonSpace(Squeeze(p, s, inRun)) == NonSpace(s)
  {
    if s != [] {
      var head := if p(s[0]) then (if inRun then [] else " ") else [s[0]];
      SqueezeKeepsNonSpace(p, s[1..], p(s[0]));
      NonSpaceAppend(head, Squeeze(p, s[1..], p(s[0])));
    }
  }

  lemma {:induction false} TrimStartKeepsNonSpace(s: string)
    ensures NonSpace(TrimStart(s)) == NonSpace(s)
  {
    if s != [] && IsSpace(s[0]) {
      TrimStartKeepsNonSpace(s[1..]);
    }
  }

  lemma {:induction false} TrimEndKeepsNonSpace(s: string)
    ensures NonSpace(TrimEnd(s)) == NonSpace(s)
  {
    if s != [] && IsSpace(s[|s| - 1]) {
      var init := s[..|s| - 1];
      assert s == init + [s[|s| - 1]];
      NonSpaceAppend(init, [s[|s| - 1]]);
      assert TrimEnd(s) == TrimEnd(init);
      TrimEndKeepsNonSpace(init);
    } else {
      assert TrimEnd(s) == s;
    }
  }

  lemma StripKeepsNonSpace(s: string)
    ensures NonSpace(Strip(s)) == NonSpace(s)
  {
    TrimStartKeepsNonSpace(s);
    TrimEndKeepsNonSpace(TrimStart(s));
  }

  /** The second substitution leaves only single plain spaces; after a
      replaced run the output does not start with whitespace. */
  lemma {:induction false} SqueezeSpacesSingleSpaced(s: string, inRun: bool)
    ensures SingleSpaced(Squeeze(IsSpace, s, inRun))
    ensures inRun ==> Squeeze(IsSpace, s, inRun) == [] || !IsSpace(Squeeze(IsSpace, s, inRun)[0])
  {
    if s != [] {
      var rest := Squeeze(IsSpace, s[1..], IsSpace(s[0]));
      SqueezeSpacesSingleSpaced(s[1..], IsSpace(s[0]));
      var head := if IsSpace(s[0]) then (if inRun then [] else " ") else [s[0]];
      assert Squeeze(IsSpace, s, inRun) == head + rest;
      SingleSpacedCons(head, rest);
    }
  }

  /** At most one character put before a single-spaced text keeps it
      single-spaced, unless a space lands next to another. */
  lemma SingleSpacedCons(head: string, rest: string)
    requires |head| <= 1 && SingleSpaced(head) && SingleSpaced(rest)
    requires head != [] && IsSpace(head[0]) && rest != [] ==> !IsSpace(rest[0])
    ensures SingleSpaced(head + rest)
  {
    var r := head + rest;
    assert forall i :: |head| <= i < |r| ==> r[i] == rest[i - |head|];
  }

  /** Removing characters from both ends keeps a string single-spaced. */
  lemma SliceSingleSpaced(t: string, a: nat, b: nat)
    requires a <= b <= |t| && SingleSpaced(t)
    ensures SingleSpaced(t[a..b])
  {
    var u := t[a..b];
    assert forall i :: 0 <= i < |u| ==> u[i] == t[a + i];
  }

  lemma {:induction false} SqueezeWithoutRun(p: char -> bool, s: string, inRun: bool)
    requires forall i :: 0 <= i < |s| ==> !p(s[i])
    ensures Squeeze(p, s, inRun) == s
  {
    if s != [] {
      SqueezeWithoutRun(p, s[1..], false);
    }
  }

  lemma {:induction false} SqueezeSingleSpacedUnchanged(s: string, inRun: bool)
    requires SingleSpaced(s)
    requires inRun ==> s == [] || !IsSpace(s[0])
    ensures Squeeze(IsSpace, s, inRun) == s
  {
    if s != [] {
      SliceSingleSpaced(s, 1, |s|);
      assert |s| > 1 && IsSpace(s[0]) ==> !IsSpace(s[1..][0]);
      SqueezeSingleSpacedUnchanged(s[1..], IsSpace(s[0]));
    }
  }

  /** The output of `clean_text` holds no line break or tab, only single
      plain spaces between words, and no whitespace at either end. */
  lemma CleanTextCanonical(s: string)
    ensures Canonical(CleanText(s))
    ensures forall i :: 0 <= i < |CleanText(s)| ==> !IsBreakOrTab(CleanText(s)[i])
  {
    var u := Squeeze(IsSpace, Squeeze(IsBreakOrTab, s, false), false);
    SqueezeSpacesSingleSpaced(Squeeze(IsBreakOrTab, s, false), false);
    var t := TrimStart(u);
    SliceSingleSpaced(u, |u| - |t|, |u|);
    SliceSingleSpaced(t, 0, |TrimEnd(t)|);
  }

  /** `clean_text` keeps every non-whitespace character, in order. */
  lemma CleanTextKeepsNonSpace(s: string)
    ensures NonSpace(CleanText(s)) == NonSpace(s)
  {
    var v := Squeeze(IsBreakOrTab, s, false);
    SqueezeKeepsNonSpace(IsBreakOrTab, s, false);
    SqueezeKeepsNonSpace(IsSpace, v, false);
    StripKeepsNonSpace(Squeeze(IsSpace, v, false));
  }

  /** `clean_text` gives "" exactly on the empty or all-whitespace input. */
  lemma CleanTextEmptyIff(s: string)
    ensures CleanText(s) == [] <==> forall i :: 0 <= i < |s| ==> IsSpace(s[i])
  {
    var r := CleanText(s);
    CleanTextKeepsNonSpace(s);
    CleanTextCanonical(s);
    NonSpaceEmptyIff(s);
    NonSpaceEmptyIff(r);
  }

  /** A string already in canonical form is left as it is. */
  lemma CleanTextKeepsCanonical(t: string)
    requires Canonical(t)
    ensures CleanText(t) == t
  {
    SqueezeWithoutRun(IsBreakOrTab, t, false);
    SqueezeSingleSpacedUnchanged(t, false);
  }

  /** `clean_text(clean_text(s)) == clean_text(s)`. */
  lemma CleanTextIdempotent(s: string)
    ensures CleanText(CleanText(s)) == CleanText(s)
  {
    CleanTextCanonical(s);
    CleanTextKeepsCanonical(CleanText(s));
  }

  // ---------------------------------------------------------------------------
  // clean_text: each whitespace run between words becomes exactly one space
  // ---------------------------------------------------------------------------

  /** Whether the character just after `x` continues a run, for `Squeeze`. */
  function RunAfter(p: char -> bool, x: string, inRun: bool): bool
  {
    if x == [] then inRun else p(x[|x| - 1])
  }

  /** A substitution works piecewise: the second part only needs to know
      whether the first one ended inside a run. */
  lemma {:induction false} SqueezeAppend(p: char -> bool, x: string, y: string, inRun: bool)
    ensures Squeeze(p, x + y, inRun) == Squeeze(p, x, inRun) + Squeeze(p, y, RunAfter(p, x, inRun))
  {
    if x == [] {
      assert x + y == y;
    } else {
      var head := if p(x[0]) then (if inRun then [] else " ") else [x[0]];
      var rest := Squeeze(p, x[1..], p(x[0]));
      var tail := Squeeze(p, y, RunAfter(p, x, inRun));
      calc {
        Squeeze(p, x + y, inRun);
        { assert (x + y)[0] == x[0] && (x + y)[1..] == x[1..] + y; }
        head + Squeeze(p, x[1..] + y, p(x[0]));
        { SqueezeAppend(p, x[1..], y, p(x[0]));
          assert RunAfter(p, x[1..], p(x[0])) == RunAfter(p, x, inRun); }
        head + (rest + tail);
        (head + rest) + tail;
        Squeeze(p, x, inRun) + tail;
      }
    }
  }

  /** A text starting outside the pattern keeps its first character, and
      does not care whether a run came before it. */
  lemma SqueezeSolidStart(p: char -> bool, y: string, inRun: bool)
    requires y != [] && !p(y[0])
    ensures Squeeze(p, y, inRun) == Squeeze(p, y, false)
    ensures Squeeze(p, y, inRun) != [] && Squeeze(p, y, inRun)[0] == y[0]
  {
  }

  /** A text ending outside the pattern keeps its last character. */
  lemma SqueezeSolidEnd(p: char -> bool, x: string, inRun: bool)
    requires x != [] && !p(x[|x| - 1])
    ensures var r := Squeeze(p, x, inRun); r != [] && r[|r| - 1] == x[|x| - 1]
  {
    var init, c := x[..|x| - 1], x[|x| - 1];
    assert x == init + [c];
    SqueezeAppend(p, init, [c], inRun);
    assert Squeeze(p, [c], RunAfter(p, init, inRun)) == [c];
  }

  /** A whole run becomes one space, or nothing when it continues a run
      already replaced. */
  lemma {:induction false} SqueezeRun(p: char -> bool, w: string, inRun: bool)
    requires forall i :: 0 <= i < |w| ==> p(w[i])
    ensures Squeeze(p, w, inRun) == if w == [] || inRun then [] else " "
  {
    if w != [] {
      SqueezeRun(p, w[1..], true);
    }
  }

  /** Whitespace stays whitespace, and a non-empty run outside a run is not
      deleted. */
  lemma {:induction false} SqueezeAllSpace(p: char -> bool, w: string, inRun: bool)
    requires forall i :: 0 <= i < |w| ==> IsSpace(w[i])
    ensures forall i :: 0 <= i < |Squeeze(p, w, inRun)| ==> IsSpace(Squeeze(p, w, inRun)[i])
    ensures w != [] && !inRun ==> Squeeze(p, w, inRun) != []
  {
    if w != [] {
      SqueezeAllSpace(p, w[1..], p(w[0]));
      var head := if p(w[0]) then (if inRun then [] else " ") else [w[0]];
      var rest := Squeeze(p, w[1..], p(w[0]));
      assert Squeeze(p, w, inRun) == head + rest;
      assert forall i :: |head| <= i < |head + rest| ==> (head + rest)[i] == rest[i - |head|];
    }
  }

  /** `re.sub(r'\s+', ' ', …)`: a whitespace run between two non-whitespace
      characters becomes exactly one space, and the text on either side is
      substituted on its own. */
  lemma SqueezeRunBecomesOneSpace(x: string, w: string, y: string)
    requires x != [] && !IsSpace(x[|x| - 1])
    requires w != [] && forall i :: 0 <= i < |w| ==> IsSpace(w[i])
    requires y != [] && !IsSpace(y[0])
    ensures Squeeze(IsSpace, x + w + y, false) == Squeeze(IsSpace, x, false) + " " + Squeeze(IsSpace, y, false)
  {
    assert x + w + y == x + (w + y);
    SqueezeAppend(IsSpace, x, w + y, false);
    SqueezeAppend(IsSpace, w, y, false);
    SqueezeRun(IsSpace, w, false);
    SqueezeSolidStart(IsSpace, y, true);
  }

  lemma {:induction false} LeadingSpacesAppend(x: string, z: string)
    requires x != [] && !IsSpace(x[|x| - 1])
    ensures LeadingSpaces(x + z) == LeadingSpaces(x)
  {
    if IsSpace(x[0]) {
      assert |x| > 1;
      assert (x + z)[1..] == x[1..] + z;
      LeadingSpacesAppend(x[1..], z);
    } else {
      assert (x + z)[0] == x[0];
    }
  }

  lemma {:induction false} TrailingSpacesPrepend(z: string, y: string)
    requires y != [] && !IsSpace(y[0])
    ensures TrailingSpaces(z + y) == TrailingSpaces(y)
  {
    var s := z + y;
    if IsSpace(y[|y| - 1]) {
      assert |y| > 1;
      assert s[..|s| - 1] == z + y[..|y| - 1];
      TrailingSpacesPrepend(z, y[..|y| - 1]);
    } else {
      assert s[|s| - 1] == y[|y| - 1];
    }
  }

  /** `lstrip()` of a text that contains a non-whitespace character only
      touches that text, and keeps its last character. */
  lemma TrimStartAppend(x: string, z: string)
    requires x != [] && !IsSpace(x[|x| - 1])
    ensures TrimStart(x + z) == TrimStart(x) + z
    ensures TrimStart(x) != [] && TrimStart(x)[|TrimStart(x)| - 1] == x[|x| - 1]
  {
    LeadingSpacesAppend(x, z);
    var k := LeadingSpaces(x);
    assert k < |x|;
    assert (x + z)[k..] == x[k..] + z;
  }

  /** `rstrip()` of a text that contains a non-whitespace character only
      touches that text. */
  lemma TrimEndPrepend(z: string, y: string)
    requires y != [] && !IsSpace(y[0])
    ensures TrimEnd(z + y) == z + TrimEnd(y)
  {
    TrailingSpacesPrepend(z, y);
    var k := TrailingSpaces(y);
    assert k < |y|;
    assert (z + y)[..|z + y| - k] == z + y[..|y| - k];
  }

  /** `strip()` of two words joined by one space strips each side on its own. */
  lemma StripWordBreak(x: string, y: string)
    requires x != [] && !IsSpace(x[|x| - 1])
    requires y != [] && !IsSpace(y[0])
    ensures Strip(x + " " + y) == Strip(x) + " " + Strip(y)
  {
    assert x + " " + y == x + (" " + y);
    TrimStartAppend(x, " " + y);
    var t := TrimStart(x);
    assert TrailingSpaces(t) == 0;
    assert TrimEnd(t) == t;
    assert t + (" " + y) == (t + " ") + y;
    TrimEndPrepend(t + " ", y);
    assert LeadingSpaces(y) == 0;
    assert TrimStart(y) == y;
  }

  /** `clean_text` of two texts joined by any whitespace run: each text is
      cleaned on its own and the run becomes exactly one space. */
  lemma CleanTextWordBreak(a: string, w: string, b: string)
    requires a != [] && !IsSpace(a[|a| - 1])
    requires w != [] && forall i :: 0 <= i < |w| ==> IsSpace(w[i])
    requires b != [] && !IsSpace(b[0])
    ensures CleanText(a + w + b) == CleanText(a) + " " + CleanText(b)
  {
    var a1 := Squeeze(IsBreakOrTab, a, false);
    var w1 := Squeeze(IsBreakOrTab, w, false);
    var b1 := Squeeze(IsBreakOrTab, b, false);
    // line 15, piece by piece
    assert a + w + b == a + (w + b);
    SqueezeAppend(IsBreakOrTab, a, w + b, false);
    SqueezeAppend(IsBreakOrTab, w, b, false);
    SqueezeSolidStart(IsBreakOrTab, b, RunAfter(IsBreakOrTab, w, false));
    assert Squeeze(IsBreakOrTab, a + w + b, false) == a1 + w1 + b1;
    SqueezeSolidEnd(IsBreakOrTab, a, false);
    SqueezeAllSpace(IsBreakOrTab, w, false);
    // line 16: the run left by line 15 becomes one space
    SqueezeRunBecomesOneSpace(a1, w1, b1);
    SqueezeSolidEnd(IsSpace, a1, false);
    SqueezeSolidStart(IsSpace, b1, false);
    // line 17
    StripWordBreak(Squeeze(IsSpace, a1, false), Squeeze(IsSpace, b1, false));
  }

  // ---------------------------------------------------------------------------
  // clean_text: whitespace at either end is dropped
  // ---------------------------------------------------------------------------

  lemma {:induction false} LeadingSpacesPrefix(h: string, x: string)
    requires forall i :: 0 <= i < |h| ==> IsSpace(h[i])
    ensures LeadingSpaces(h + x) == |h| + LeadingSpaces(x)
  {
    if h == [] {
      assert h + x == x;
    } else {
      assert (h + x)[0] == h[0];
      assert (h + x)[1..] == h[1..] + x;
      LeadingSpacesPrefix(h[1..], x);
    }
  }

  lemma {:induction false} TrailingSpacesSuffix(x: string, h: string)
    requires forall i :: 0 <= i < |h| ==> IsSpace(h[i])
    ensures TrailingSpaces(x + h) == TrailingSpaces(x) + |h|
  {
    if h == [] {
      assert x + h == x;
    } else {
      var s := x + h;
      assert s[|s| - 1] == h[|h| - 1];
      assert s[..|s| - 1] == x + h[..|h| - 1];
      TrailingSpacesSuffix(x, h[..|h| - 1]);
    }
  }

  lemma {:induction false} LeadingSpacesAppendSolid(x: string, z: string)
    requires LeadingSpaces(x) < |x|
    ensures LeadingSpaces(x + z) == LeadingSpaces(x)
  {
    assert (x + z)[0] == x[0];
    if IsSpace(x[0]) {
      assert (x + z)[1..] == x[1..] + z;
      LeadingSpacesAppendSolid(x[1..], z);
    }
  }

  /** `strip()` ignores whitespace put before a text. */
  lemma StripDropsLeading(h: string, x: string)
    requires forall i :: 0 <= i < |h| ==> IsSpace(h[i])
    ensures Strip(h + x) == Strip(x)
  {
    LeadingSpacesPrefix(h, x);
    assert (h + x)[|h| + LeadingSpaces(x)..] == x[LeadingSpaces(x)..];
  }

  /** `strip()` ignores whitespace put after a text. */
  lemma StripDropsTrailing(x: string, h: string)
    requires forall i :: 0 <= i < |h| ==> IsSpace(h[i])
    ensures Strip(x + h) == Strip(x)
  {
    var k := LeadingSpaces(x);
    if k < |x| {
      LeadingSpacesAppendSolid(x, h);
      assert (x + h)[k..] == x[k..] + h;
      TrimEndDropsTrailing(x[k..], h);
    } else {
      LeadingSpacesPrefix(x, h);
      LeadingSpacesPrefix(h, []);
      assert h + [] == h;
      assert TrimStart(x + h) == [];
      assert TrimStart(x) == [];
    }
  }

  /** `rstrip()` ignores whitespace put after a text. */
  lemma TrimEndDropsTrailing(t: string, h: string)
    requires forall i :: 0 <= i < |h| ==> IsSpace(h[i])
    ensures TrimEnd(t + h) == TrimEnd(t)
  {
    TrailingSpacesSuffix(t, h);
    var n := |t| - TrailingSpaces(t);
    assert (t + h)[..n] == t[..n];
  }

  /** One substitution stage over whitespace put before a text that starts
      outside whitespace: the whitespace part stays whitespace and apart. */
  lemma SqueezeStageBefore(p: char -> bool, w: string, t: string)
    requires forall i :: 0 <= i < |w| ==> IsSpace(w[i])
    requires t == [] || (!IsSpace(t[0]) && !p(t[0]))
    ensures Squeeze(p, w + t, false) == Squeeze(p, w, false) + Squeeze(p, t, false)
    ensures forall i :: 0 <= i < |Squeeze(p, w, false)| ==> IsSpace(Squeeze(p, w, false)[i])
    ensures var r := Squeeze(p, t, false); r == [] || !IsSpace(r[0])
  {
    SqueezeAppend(p, w, t, false);
    SqueezeAllSpace(p, w, false);
    if t != [] {
      SqueezeSolidStart(p, t, RunAfter(p, w, false));
    }
  }

  /** One substitution stage over whitespace put after a text that ends
      outside whitespace. */
  lemma SqueezeStageAfter(p: char -> bool, t: string, w: string)
    requires t == [] || (!IsSpace(t[|t| - 1]) && !p(t[|t| - 1]))
    requires forall i :: 0 <= i < |w| ==> IsSpace(w[i])
    ensures Squeeze(p, t + w, false) == Squeeze(p, t, false) + Squeeze(p, w, false)
    ensures forall i :: 0 <= i < |Squeeze(p, w, false)| ==> IsSpace(Squeeze(p, w, false)[i])
    ensures var r := Squeeze(p, t, false); r == [] || !IsSpace(r[|r| - 1])
  {
    SqueezeAppend(p, t, w, false);
    SqueezeAllSpace(p, w, false);
    if t != [] {
      SqueezeSolidEnd(p, t, false);
    }
  }

  /** A whitespace run before a text that starts outside whitespace is
      dropped by `clean_text`. */
  lemma CleanTextDropsRunBefore(w: string, t: string)
    requires forall i :: 0 <= i < |w| ==> IsSpace(w[i])
    requires t == [] || !IsSpace(t[0])
    ensures CleanText(w + t) == CleanText(t)
  {
    SqueezeStageBefore(IsBreakOrTab, w, t);
    var w1, t1 := Squeeze(IsBreakOrTab, w, false), Squeeze(IsBreakOrTab, t, false);
    SqueezeStageBefore(IsSpace, w1, t1);
    StripDropsLeading(Squeeze(IsSpace, w1, false), Squeeze(IsSpace, t1, false));
  }

  /** A whitespace run after a text that ends outside whitespace is
      dropped by `clean_text`. */
  lemma CleanTextDropsRunAfter(t: string, w: string)
    requires t == [] || !IsSpace(t[|t| - 1])
    requires forall i :: 0 <= i < |w| ==> IsSpace(w[i])
    ensures CleanText(t + w) == CleanText(t)
  {
    SqueezeStageAfter(IsBreakOrTab, t, w);
    var t1, w1 := Squeeze(IsBreakOrTab, t, false), Squeeze(IsBreakOrTab, w, false);
    SqueezeStageAfter(IsSpace, t1, w1);
    StripDropsTrailing(Squeeze(IsSpace, t1, false), Squeeze(IsSpace, w1, false));
  }

  /** `s` split after its leading whitespace, with `w` joined to that part. */
  lemma SplitLeading(w: string, s: string)
    requires forall i :: 0 <= i < |w| ==> IsSpace(w[i])
    ensures s == s[..LeadingSpaces(s)] + s[LeadingSpaces(s)..]
    ensures w + s == (w + s[..LeadingSpaces(s)]) + s[LeadingSpaces(s)..]
    ensures s[LeadingSpaces(s)..] == [] || !IsSpace(s[LeadingSpaces(s)..][0])
    ensures var h := w + s[..LeadingSpaces(s)]; forall i :: 0 <= i < |h| ==> IsSpace(h[i])
  {
    var k := LeadingSpaces(s);
    var s0, s1 := s[..k], s[k..];
    assert s == s0 + s1;
    assert w + s == (w + s0) + s1;
    assert s1 != [] ==> s1[0] == s[k];
    var h := w + s0;
    forall i | 0 <= i < |h|
      ensures IsSpace(h[i])
    {
      if i < |w| {
        assert h[i] == w[i];
      } else {
        assert h[i] == s0[i - |w|] == s[i - |w|];
      }
    }
  }

  /** `s` split before its trailing whitespace, with `w` joined to that part. */
  lemma SplitTrailing(s: string, w: string)
    requires forall i :: 0 <= i < |w| ==> IsSpace(w[i])
    ensures s == s[..|s| - TrailingSpaces(s)] + s[|s| - TrailingSpaces(s)..]
    ensures s + w == s[..|s| - TrailingSpaces(s)] + (s[|s| - TrailingSpaces(s)..] + w)
    ensures var t := s[..|s| - TrailingSpaces(s)]; t == [] || !IsSpace(t[|t| - 1])
    ensures var h := s[|s| - TrailingSpaces(s)..] + w; forall i :: 0 <= i < |h| ==> IsSpace(h[i])
  {
    var n := |s| - TrailingSpaces(s);
    var s1, s0 := s[..n], s[n..];
    assert s == s1 + s0;
    assert s + w == s1 + (s0 + w);
    assert s1 != [] ==> s1[n - 1] == s[n - 1];
    var h := s0 + w;
    forall i | 0 <= i < |h|
      ensures IsSpace(h[i])
    {
      if i < |s0| {
        assert h[i] == s0[i] == s[n + i];
      } else {
        assert h[i] == w[i - |s0|];
      }
    }
  }

  /** Whitespace put before any text does not change `clean_text`. */
  lemma CleanTextDropsLeadingSpace(w: string, s: string)
    requires forall i :: 0 <= i < |w| ==> IsSpace(w[i])
    ensures CleanText(w + s) == CleanText(s)
  {
    var k := LeadingSpaces(s);
    SplitLeading(w, s);
    CleanTextDropsRunBefore(w + s[..k], s[k..]);
    CleanTextDropsRunBefore(s[..k], s[k..]);
  }

  /** Whitespace put after any text does not change `clean_text`. */
  lemma CleanTextDropsTrailingSpace(s: string, w: string)
    requires forall i :: 0 <= i < |w| ==> IsSpace(w[i])
    ensures CleanText(s + w) == CleanText(s)
  {
    var n := |s| - TrailingSpaces(s);
    SplitTrailing(s, w);
    CleanTextDropsRunAfter(s[..n], s[n..] + w);
    CleanTextDropsRunAfter(s[..n], s[n..]);
  }

  // ---------------------------------------------------------------------------
  // preprocess_data
  // ---------------------------------------------------------------------------

  /** The metadata keys of a loaded page that the record builder reads; a
      key absent from the page's metadata is None. */
  datatype PageMeta = PageMeta(
    source: Option<string>,
    filePath: Option<string>,
    page: Option<int>,
    totalPages: Option<int>)

  /** A page as the PDF loader returns it. */
  datatype Page = Page(pageContent: string, metadata: PageMeta)

  /** The caller's classification of a file, attached to each of its records. */
  datatype Classification = Classification(
    board: string,
    language: string,
    cls: string,
    subject: string,
    subjectPart: int,
    author: string,
    tags: Option<seq<string>>)

  /** The structured record built from one page (one dictionary of the list). */
  datatype Record = Record(
    source: string,
    filePath: string,
    board: string,
    language: string,
    cls: string,
    subject: string,
    subjectPart: int,
    author: string,
    tags: Option<seq<string>>,
    page: int,
    totalPages: int,
    content: string,
    date: string,
    time: string)

  /** `metadata.get(key, default)`. */
  function GetOr<T>(v: Option<T>, default: T): T
  {
    match v
    case Some(x) => x
    case None => default
  }

  /** The dictionary built for one page at one clock reading. */
  function BuildRecord(p: Page, c: Classification, now: Stamp): Record
  {
    Record(
      GetOr(p.metadata.source, ""),
      GetOr(p.metadata.filePath, ""),
      c.board, c.language, c.cls, c.subject, c.subjectPart, c.author, c.tags,
      GetOr(p.metadata.page, 0),
      GetOr(p.metadata.totalPages, 0),
      CleanText(p.pageContent),
      now.date, now.time)
  }

  /** The list `preprocess_data` returns: record i is built from page i at
      clock reading i, appended in page order. */
  function Preprocessed(pages: seq<Page>, c: Classification, clock: Clock): seq<Record>
  {
    if pages == [] then []
    else
      var n := |pages| - 1;
      Preprocessed(pages[..n], c, clock) + [BuildRecord(pages[n], c, clock(n))]
  }

  /** One record per page. */
  lemma {:induction false} PreprocessedLength(pages: seq<Page>, c: Classification, clock: Clock)
    ensures |Preprocessed(pages, c, clock)| == |pages|
  {
    if pages != [] {
      PreprocessedLength(pages[..|pages| - 1], c, clock);
    }
  }

  /** Record i of the list is the one built from page i at clock reading i. */
  lemma {:induction false} PreprocessedAt(pages: seq<Page>, c: Classification, clock: Clock, i: nat)
    requires i < |pages|
    ensures |Preprocessed(pages, c, clock)| == |pages|
    ensures Preprocessed(pages, c, clock)[i] == BuildRecord(pages[i], c, clock(i))
  {
    var n := |pages| - 1;
    var init := pages[..n];
    PreprocessedLength(pages, c, clock);
    PreprocessedLength(init, c, clock);
    assert Preprocessed(pages, c, clock) == Preprocessed(init, c, clock) + [BuildRecord(pages[n], c, clock(n))];
    if i < n {
      PreprocessedAt(init, c, clock, i);
      assert init[i] == pages[i];
      assert Preprocessed(pages, c, clock)[i] == Preprocessed(init, c, clock)[i];
    }
  }

  /** One record per page, in page order, none dropped; each carries the
      caller's classification verbatim, the cleaned page text, and the page
      metadata with '' and 0 standing in for missing keys. */
  lemma PreprocessedRecords(pages: seq<Page>, c: Classification, clock: Clock)
    ensures |Preprocessed(pages, c, clock)| == |pages|
    ensures forall i :: 0 <= i < |pages| ==>
      var r, p := Preprocessed(pages, c, clock)[i], pages[i];
      && r.board == c.board && r.language == c.language && r.cls == c.cls
      && r.subject == c.subject && r.subjectPart == c.subjectPart
      && r.author == c.author && r.tags == c.tags
      && r.content == CleanText(p.pageContent)
      && (r.source == if p.metadata.source.Some? then p.metadata.source.value else "")
      && (r.filePath == if p.metadata.filePath.Some? then p.metadata.filePath.value else "")
      && (r.page == if p.metadata.page.Some? then p.metadata.page.value else 0)
      && (r.totalPages == if p.metadata.totalPages.Some? then p.metadata.totalPages.value else 0)
      && r.date == clock(i).date && r.time == clock(i).time
  {
    if pages == [] {
    } else {
      PreprocessedAt(pages, c, clock, 0);
      forall i | 0 <= i < |pages|
        ensures Preprocessed(pages, c, clock)[i] == BuildRecord(pages[i], c, clock(i))
      {
        PreprocessedAt(pages, c, clock, i);
      }
    }
  }

  /** Every record's content is already in canonical form. */
  lemma PreprocessedContentCanonical(pages: seq<Page>, c: Classification, clock: Clock)
    ensures forall i :: 0 <= i < |Preprocessed(pages, c, clock)| ==>
      Canonical(Preprocessed(pages, c, clock)[i].content)
  {
    PreprocessedRecords(pages, c, clock);
    forall i | 0 <= i < |pages|
      ensures Canonical(Preprocessed(pages, c, clock)[i].content)
    {
      CleanTextCanonical(pages[i].pageContent);
    }
  }

  /** `preprocess_data`: the loop that appends one record per page. */
  method PreprocessData(pages: seq<Page>, c: Classification, clock: Clock)
    returns (records: seq<Record>)
    ensures records == Preprocessed(pages, c, clock)
  {
    records := [];
    for i := 0 to |pages|
      invariant records == Preprocessed(pages[..i], c, clock)
    {
      var record := BuildRecord(pages[i], c, clock(i));
      assert pages[..i + 1][..i] == pages[..i];
      assert Preprocessed(pages[..i + 1], c, clock) == Preprocessed(pages[..i], c, clock) + [record];
      records := records + [record];
    }
    assert pages[..|pages|] == pages;
  }
}
