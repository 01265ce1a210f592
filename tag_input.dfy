/** The tag editor of the pen form: a text box whose text is turned into a tag
    (trimmed, lower-cased, every run of white space replaced by `-`) and appended to
    the list of tags, plus removal of one tag and Backspace removal of the last one. */
module TagInput {
  import opened Common

  /** Replaces every maximal run of white space by a single `-`. `inRun` says that
      the character before `s` was white space whose run already produced its `-`. */
  function Hyphenate(s: string, inRun: bool): (r: string)
    ensures NoSpace(r)
    ensures NoUpper(s) ==> NoUpper(r)
    ensures |r| <= |s| + 1
  {
    if s == [] then []
    else if IsSpace(s[0]) then
      (if inRun then [] else "-") + Hyphenate(s[1..], true)
    else [s[0]] + Hyphenate(s[1..], false)
  }

  /** `input.trim().toLowerCase().replace(/\s+/g, "-")`. */
  function Normalize(input: string): (tag: string)
    ensures NoSpace(tag) && NoUpper(tag)
    ensures tag == [] <==> forall i :: 0 <= i < |input| ==> IsSpace(input[i])
  {
    var t := Trim(input);
    TrimEmptyIffAllSpace(input);
    HyphenateEmpty(Lower(t), false);
    Hyphenate(Lower(t), false)
  }

  lemma {:induction false} HyphenateEmpty(s: string, inRun: bool)
    requires s == [] || !IsSpace(s[0])
    ensures Hyphenate(s, inRun) == [] <==> s == []
  {
  }

  /** Text without white space is left as it is. */
  lemma {:induction false} HyphenateNoSpace(s: string, inRun: bool)
    requires NoSpace(s)
    ensures Hyphenate(s, inRun) == s
  {
    if s != [] {
      HyphenateNoSpace(s[1..], false);
    }
  }

  /** A word is copied and the rest is hyphenated as if the run had ended. */
  lemma {:induction false} HyphenateWord(a: string, b: string, inRun: bool)
    requires a != [] && NoSpace(a)
    ensures Hyphenate(a + b, inRun) == a + Hyphenate(b, false)
  {
    assert (a + b)[1..] == a[1..] + b;
    if |a| > 1 {
      HyphenateWord(a[1..], b, false);
    }
  }

  /** A run of white space becomes one `-`, or nothing when the run began earlier. */
  lemma {:induction false} HyphenateRun(w: string, b: string, inRun: bool)
    requires w != [] && forall i :: 0 <= i < |w| ==> IsSpace(w[i])
    ensures Hyphenate(w + b, inRun) == (if inRun then [] else "-") + Hyphenate(b, true)
  {
    assert (w + b)[1..] == w[1..] + b;
    if |w| > 1 {
      HyphenateRun(w[1..], b, true);
    }
  }

  lemma LowerKeepsSpace(w: string)
    requires forall i :: 0 <= i < |w| ==> IsSpace(w[i])
    ensures forall i :: 0 <= i < |Lower(w)| ==> IsSpace(Lower(w)[i])
  {
  }

  lemma LowerKeepsNoSpace(a: string)
    requires NoSpace(a)
    ensures NoSpace(Lower(a))
  {
  }

  lemma {:induction false} LowerOfWords(a: string, w: string, b: string)
    ensures Lower(a + w + b) == Lower(a) + (Lower(w) + Lower(b))
  {
    var la, lw, lb := Lower(a), Lower(w), Lower(b);
    calc {
      Lower(a + w + b);
    ==  { LowerConcat(a + w, b); }
      Lower(a + w) + lb;
    ==  { LowerConcat(a, w); }
      la + lw + lb;
    ==  { assert la + lw + lb == la + (lw + lb); }
      la + (lw + lb);
    }
  }

  /** Two words separated by a run of white space become the lower-cased words
      joined by one `-`. */
  lemma WordsAreHyphenated(a: string, w: string, b: string)
    requires a != [] && b != [] && NoSpace(a) && NoSpace(b)
    requires w != [] && AllSpace(w)
    ensures Normalize(a + w + b) == Lower(a) + "-" + Lower(b)
  {
    NormalizeFirstWord(a, w, b);
    NormalizeWord(b);
  }

  /** White space around a text does not change its tag. */
  lemma NormalizeSkipsSurroundingSpace(w1: string, x: string, w2: string)
    requires AllSpace(w1) && AllSpace(w2)
    ensures Normalize(w1 + x + w2) == Normalize(x)
  {
    TrimSkipsSurroundingSpace(w1, x, w2);
  }

  /** A single word is only lower-cased. */
  lemma NormalizeWord(a: string)
    requires NoSpace(a)
    ensures Normalize(a) == Lower(a)
  {
    LowerKeepsNoSpace(a);
    HyphenateNoSpace(Lower(a), false);
  }

  /** Whether the last character seen was white space does not matter before a
      word. */
  lemma HyphenateBeforeWord(s: string)
    requires s == [] || !IsSpace(s[0])
    ensures Hyphenate(s, true) == Hyphenate(s, false)
  {
  }

  /** Trailing white space is all that `TrimEnd` removes after a word. */
  lemma {:induction false} TrimEndKeepsFront(x: string, b: string)
    requires b != [] && !IsSpace(b[0])
    ensures TrimEnd(x + b) == x + TrimEnd(b)
  {
    var s := x + b;
    if IsSpace(b[|b| - 1]) {
      var c := b[..|b| - 1];
      assert s[|s| - 1] == b[|b| - 1] && s[..|s| - 1] == x + c;
      TrimEndKeepsFront(x, c);
    }
  }

  /** A text that starts with a word is trimmed at its end only. */
  lemma TrimAfterWord(a: string, w: string, b: string)
    requires a != [] && !IsSpace(a[0])
    requires b != [] && !IsSpace(b[0])
    ensures Trim(a + w + b) == a + w + Trim(b)
    ensures Trim(b) != [] && Trim(b)[0] == b[0]
  {
    assert (a + w + b)[0] == a[0];
    TrimEndKeepsFront(a + w, b);
    TrimEndKeepsFront([], b);
    assert [] + b == b;
  }

  /** A leading word and the run of white space after it become the lower-cased
      word and one `-`, followed by the tag of the rest. */
  lemma NormalizeFirstWord(a: string, w: string, b: string)
    requires a != [] && NoSpace(a)
    requires w != [] && AllSpace(w)
    requires b != [] && !IsSpace(b[0])
    ensures Normalize(a + w + b) == Lower(a) + "-" + Normalize(b)
  {
    var t := Trim(b);
    var la, lw, lt := Lower(a), Lower(w), Lower(t);
    LowerKeepsSpace(w);
    LowerKeepsNoSpace(a);
    var h := Hyphenate(lt, false);
    calc {
      Normalize(a + w + b);
    ==
      Hyphenate(Lower(Trim(a + w + b)), false);
    ==  { TrimAfterWord(a, w, b); }
      Hyphenate(Lower(a + w + t), false);
    ==  { LowerOfWords(a, w, t); }
      Hyphenate(la + (lw + lt), false);
    ==  { HyphenateWord(la, lw + lt, false); }
      la + Hyphenate(lw + lt, false);
    ==  { HyphenateRun(lw, lt, false); }
      la + ("-" + Hyphenate(lt, true));
    ==  { TrimAfterWord(a, w, b); HyphenateBeforeWord(lt); }
      la + ("-" + h);
    ==  { assert la + ("-" + h) == la + "-" + h; }
      la + "-" + h;
    }
  }

  /** Words with runs of white space between them. */
  function Spaced(words: seq<string>, gaps: seq<string>): string
    requires |words| == |gaps| + 1
  {
    if gaps == [] then words[0] else words[0] + gaps[0] + Spaced(words[1..], gaps[1..])
  }

  /** The lower-cased words joined by `-`. */
  function Hyphenated(words: seq<string>): string
    requires words != []
  {
    if |words| == 1 then Lower(words[0]) else Lower(words[0]) + "-" + Hyphenated(words[1..])
  }

  predicate Words(words: seq<string>) {
    forall i :: 0 <= i < |words| ==> words[i] != [] && NoSpace(words[i])
  }

  predicate Gaps(gaps: seq<string>) {
    forall i :: 0 <= i < |gaps| ==> gaps[i] != [] && AllSpace(gaps[i])
  }

  lemma {:induction false} NormalizeSpaced(words: seq<string>, gaps: seq<string>)
    requires |words| == |gaps| + 1 && Words(words) && Gaps(gaps)
    ensures Normalize(Spaced(words, gaps)) == Hyphenated(words)
  {
    if gaps == [] {
      NormalizeWord(words[0]);
    } else {
      var rest := Spaced(words[1..], gaps[1..]);
      assert words[1] == words[1..][0];
      assert rest != [] && rest[0] == words[1][0] by {
        if gaps[1..] != [] {
          assert rest == words[1] + gaps[1] + Spaced(words[2..], gaps[2..]);
        }
      }
      NormalizeFirstWord(words[0], gaps[0], rest);
      NormalizeSpaced(words[1..], gaps[1..]);
    }
  }

  /** Any number of words, with runs of white space between them and around them,
      become the lower-cased words joined by single `-`. */
  lemma NormalizeWords(before: string, words: seq<string>, gaps: seq<string>, after: string)
    requires |words| == |gaps| + 1 && Words(words) && Gaps(gaps)
    requires AllSpace(before) && AllSpace(after)
    ensures Normalize(before + Spaced(words, gaps) + after) == Hyphenated(words)
  {
    NormalizeSkipsSurroundingSpace(before, Spaced(words, gaps), after);
    NormalizeSpaced(words, gaps);
  }

  /** Normalising a normalised tag changes nothing. */
  lemma NormalizeIdempotent(input: string)
    ensures Normalize(Normalize(input)) == Normalize(input)
  {
    var tag := Normalize(input);
    assert Trim(tag) == tag;
    LowerOfNoUpper(tag);
    HyphenateNoSpace(tag, false);
  }

  /** `[...tags, tag]` when the tag is non-empty and new, else the same list. */
  function WithTag(tags: seq<string>, tag: string): (r: seq<string>)
    ensures tag != [] && tag !in tags ==> r == tags + [tag]
    ensures tag == [] || tag in tags ==> r == tags
    ensures NoDuplicates(tags) ==> NoDuplicates(r)
  {
    if tag != [] && tag !in tags then tags + [tag] else tags
  }

  /** `tags.filter(t => t !== tag)`. */
  function WithoutTag(tags: seq<string>, tag: string): (r: seq<string>)
    ensures tag !in r
    ensures forall t :: t in r <==> t in tags && t != tag
    ensures IsSubsequence(r, tags)
    ensures forall t :: multiset(r)[t] == if t != tag then multiset(tags)[t] else 0
  {
    Filter(tags, t => t != tag)
  }

  /** `tags.slice(0, -1)`. */
  function DropLast(tags: seq<string>): (r: seq<string>)
    requires tags != []
    ensures |r| == |tags| - 1 && r == tags[..|tags| - 1]
  {
    tags[..|tags| - 1]
  }

  lemma {:induction false} SubsequenceMembers<T>(r: seq<T>, s: seq<T>, x: T)
    requires IsSubsequence(r, s) && x in r
    ensures x in s
  {
    if r[0] == s[0] {
      if x != r[0] {
        SubsequenceMembers(r[1..], s[1..], x);
      }
    } else {
      SubsequenceMembers(r, s[1..], x);
    }
  }

  lemma {:induction false} SubsequenceNoDuplicates<T>(r: seq<T>, s: seq<T>)
    requires IsSubsequence(r, s) && NoDuplicates(s)
    ensures NoDuplicates(r)
  {
    if r != [] {
      if r[0] == s[0] {
        SubsequenceNoDuplicates(r[1..], s[1..]);
        forall j | 0 < j < |r| ensures r[0] != r[j] {
          assert r[j] == r[1..][j - 1];
          SubsequenceMembers(r[1..], s[1..], r[j]);
          var k :| 0 <= k < |s[1..]| && s[1..][k] == r[j];
          assert s[k + 1] == r[j];
        }
      } else {
        SubsequenceNoDuplicates(r, s[1..]);
      }
    }
  }

  /** Removing tags keeps a duplicate-free list duplicate-free. */
  lemma WithoutTagNoDuplicates(tags: seq<string>, tag: string)
    requires NoDuplicates(tags)
    ensures NoDuplicates(WithoutTag(tags, tag))
  {
    SubsequenceNoDuplicates(WithoutTag(tags, tag), tags);
  }

  /** The state of the editor: the text being typed, and the tag list it edits
      (owned by the enclosing form, which receives every new list). */
  class Editor {
    var input: string
    var tags: seq<string>

    predicate Valid()
      reads this
    {
      NoDuplicates(tags)
    }

    constructor (initial: seq<string>)
      requires NoDuplicates(initial)
      ensures Valid()
      ensures input == [] && tags == initial
    {
      input := [];
      tags := initial;
    }

    /** The text box changes. */
    method Type(text: string)
      modifies this
      ensures input == text && tags == old(tags)
    {
      input := text;
    }

    /** Adds the typed tag if it is new and non-empty; the text box is cleared in
        every case. */
    method AddTag()
      requires Valid()
      modifies this
      ensures Valid()
      ensures tags == WithTag(old(tags), Normalize(old(input)))
      ensures input == []
    {
      var tag := Normalize(input);
      tags := WithTag(tags, tag);
      input := [];
    }

    /** The remove button of one tag. */
    method RemoveTag(tag: string)
      requires Valid()
      modifies this
      ensures Valid()
      ensures tags == WithoutTag(old(tags), tag)
      ensures input == old(input)
    {
      WithoutTagNoDuplicates(tags, tag);
      tags := WithoutTag(tags, tag);
    }

    /** Enter and comma add the typed tag; Backspace in an empty text box removes
        the last tag; any other key changes nothing. */
    method KeyDown(key: string)
      requires Valid()
      modifies this
      ensures Valid()
      ensures key == "Enter" || key == "," ==>
                tags == WithTag(old(tags), Normalize(old(input))) && input == []
      ensures key != "Enter" && key != "," && key == "Backspace" && old(input) == [] && old(tags) != [] ==>
                tags == DropLast(old(tags)) && input == old(input)
      ensures key != "Enter" && key != "," && !(key == "Backspace" && old(input) == [] && old(tags) != []) ==>
                tags == old(tags) && input == old(input)
    {
      if key == "Enter" || key == "," {
        AddTag();
      } else if key == "Backspace" && input == [] && |tags| > 0 {
        tags := DropLast(tags);
      }
    }

    /** Leaving the text box adds the typed tag. */
    method Blur()
      requires Valid()
      modifies this
      ensures Valid()
      ensures tags == WithTag(old(tags), Normalize(old(input)))
      ensures input == []
    {
      AddTag();
    }
  }
}
