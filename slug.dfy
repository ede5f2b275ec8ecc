/** `generateSlug` of the portfolio and services editors
    (`src/app/admin/portfolio/page.tsx`, `src/app/admin/services/page.tsx`):
    lower-case the title, drop every character other than `a-z`, `0-9`,
    white space and `-`, turn each run of white space into `-`, collapse
    runs of `-`, then trim. */
module Slugs {
  import opened Common

  predicate IsSlugChar(c: char) {
    ('a' <= c <= 'z') || ('0' <= c <= '9') || c == '-'
  }

  /** `toLowerCase` of one character, as far as it can matter here: the
      ASCII capitals, and the two non-ASCII characters whose lower case
      contains an ASCII letter (the Kelvin sign, and the dotted capital I,
      which becomes `i` followed by a combining dot). Any other character
      is kept: whatever its lower case, the next step drops it. */
  function LowerChar(c: char): (r: string)
    ensures IsSlugChar(c) ==> r == [c]
    ensures IsJsSpace(c) ==> r == [c]
  {
    if 'A' <= c <= 'Z' then [(c as int + 32) as char]
    else if c == '\U{212A}' then "k"
    else if c == '\U{130}' then "i\U{307}"
    else [c]
  }

  function ToLower(s: string): string {
    if s == [] then [] else LowerChar(s[0]) + ToLower(s[1..])
  }

  /** `.replace(/[^a-z0-9\s-]/g, '')` */
  function KeepSlugChars(s: string): (r: string)
    ensures forall i :: 0 <= i < |r| ==> IsSlugChar(r[i]) || IsJsSpace(r[i])
  {
    if s == [] then []
    else if IsSlugChar(s[0]) || IsJsSpace(s[0]) then [s[0]] + KeepSlugChars(s[1..])
    else KeepSlugChars(s[1..])
  }

  /** `.replace(/\s+/g, '-')`: every maximal run of white space becomes one
      `-`. */
  function DashSpaces(s: string): (r: string)
    ensures s != [] ==> r != [] && (IsJsSpace(s[0]) ==> r[0] == '-')
    decreases |s|
  {
    if s == [] then []
    else if IsJsSpace(s[0]) then "-" + DashSpaces(TrimStart(s[1..]))
    else [s[0]] + DashSpaces(s[1..])
  }

  /** Every character of the replacement is `-` or a character of the
      input other than white space: whatever property `p` those characters
      share, the result shares it. */
  lemma {:induction false} DashSpacesChars(s: string, p: char -> bool)
    requires p('-')
    requires forall i :: 0 <= i < |s| ==> p(s[i]) || IsJsSpace(s[i])
    ensures forall i :: 0 <= i < |DashSpaces(s)| ==> p(DashSpaces(s)[i])
    decreases |s|
  {
    if s != [] {
      var c, t := DashSpacesStep(s);
      assert forall i :: 0 <= i < |t| ==> p(t[i]) || IsJsSpace(t[i]) by {
        assert forall i :: 0 <= i < |t| ==> t[i] == s[|s| - |t| + i];
      }
      DashSpacesChars(t, p);
      ConsChars(c, DashSpaces(t), p);
    }
  }

  /** One step of the replacement: a first character, then the replacement
      of a strictly shorter suffix. */
  lemma DashSpacesStep(s: string) returns (c: char, t: string)
    requires s != []
    ensures DashSpaces(s) == [c] + DashSpaces(t)
    ensures |t| < |s| && t == s[|s| - |t|..]
    ensures c == '-' || (c == s[0] && !IsJsSpace(s[0]))
  {
    if IsJsSpace(s[0]) {
      c, t := '-', TrimStart(s[1..]);
    } else {
      c, t := s[0], s[1..];
    }
  }

  lemma ConsChars(c: char, t: string, p: char -> bool)
    requires p(c) && forall i :: 0 <= i < |t| ==> p(t[i])
    ensures forall i :: 0 <= i < |[c] + t| ==> p(([c] + t)[i])
  {
  }

  /** No white space survives the replacement. */
  lemma DashSpacesNoWhiteSpace(s: string)
    ensures forall i :: 0 <= i < |DashSpaces(s)| ==> !IsJsSpace(DashSpaces(s)[i])
  {
    DashSpacesChars(s, c => !IsJsSpace(c));
  }

  /** `s` without its leading `-` characters. */
  function DropDashes(s: string): (r: string)
    ensures |r| <= |s| && r == s[|s| - |r|..]
    ensures r != [] ==> r[0] != '-'
  {
    if s != [] && s[0] == '-' then DropDashes(s[1..]) else s
  }

  predicate NoDoubleDash(s: string) {
    forall i :: 0 <= i < |s| - 1 ==> !(s[i] == '-' && s[i + 1] == '-')
  }

  /** `.replace(/-+/g, '-')`: every maximal run of `-` becomes one `-`. */
  function Squeeze(s: string): (r: string)
    ensures NoDoubleDash(r)
    ensures s != [] ==> r != [] && r[0] == s[0]
    decreases |s|
  {
    if s == [] then []
    else if s[0] == '-' then "-" + Squeeze(DropDashes(s[1..]))
    else [s[0]] + Squeeze(s[1..])
  }

  /** Every character of the collapsed text is a character of the input:
      whatever property `p` those share, the result shares it. */
  lemma {:induction false} SqueezeChars(s: string, p: char -> bool)
    requires forall i :: 0 <= i < |s| ==> p(s[i])
    ensures forall i :: 0 <= i < |Squeeze(s)| ==> p(Squeeze(s)[i])
    decreases |s|
  {
    if s != [] {
      var t := SqueezeStep(s);
      assert forall i :: 0 <= i < |t| ==> p(t[i]) by {
        assert forall i :: 0 <= i < |t| ==> t[i] == s[|s| - |t| + i];
      }
      SqueezeChars(t, p);
      ConsChars(s[0], Squeeze(t), p);
    }
  }

  /** One step of the collapse: the first character, then the collapse of a
      strictly shorter suffix. */
  lemma SqueezeStep(s: string) returns (t: string)
    requires s != []
    ensures Squeeze(s) == [s[0]] + Squeeze(t)
    ensures |t| < |s| && t == s[|s| - |t|..]
  {
    if s[0] == '-' {
      t := DropDashes(s[1..]);
    } else {
      t := s[1..];
    }
  }

  /** Before the final trim, a generated slug holds slug characters only. */
  lemma SqueezedSlugChars(title: string)
    ensures forall i :: 0 <= i < |Squeeze(DashSpaces(KeepSlugChars(ToLower(title))))| ==>
      IsSlugChar(Squeeze(DashSpaces(KeepSlugChars(ToLower(title))))[i])
  {
    var k := KeepSlugChars(ToLower(title));
    DashSpacesChars(k, c => IsSlugChar(c));
    SqueezeChars(DashSpaces(k), c => IsSlugChar(c));
  }

  /** `generateSlug(title)` */
  function GenerateSlug(title: string): string {
    Trim(Squeeze(DashSpaces(KeepSlugChars(ToLower(title)))))
  }

  /** A generated slug uses only `a-z`, `0-9` and `-`, and never holds two
      `-` in a row. */
  lemma SlugShape(title: string)
    ensures forall i :: 0 <= i < |GenerateSlug(title)| ==> IsSlugChar(GenerateSlug(title)[i])
    ensures NoDoubleDash(GenerateSlug(title))
  {
    var s := Squeeze(DashSpaces(KeepSlugChars(ToLower(title))));
    SqueezedSlugChars(title);
    NoSpaceInSlugChars(s);
  }

  lemma NoSpaceInSlugChars(s: string)
    requires forall i :: 0 <= i < |s| ==> IsSlugChar(s[i])
    ensures forall i :: 0 <= i < |s| ==> !IsJsSpace(s[i])
  {
  }

  /** Generating a slug from a slug changes nothing. */
  lemma SlugIdempotent(title: string)
    ensures GenerateSlug(GenerateSlug(title)) == GenerateSlug(title)
  {
    var s := GenerateSlug(title);
    SlugShape(title);
    LowerSlug(s);
    KeepSlug(s);
    NoSpaceInSlugChars(s);
    DashSpacesNoSpace(s);
    SqueezeNoDoubleDash(s);
    calc {
      GenerateSlug(s);
      Trim(Squeeze(DashSpaces(KeepSlugChars(ToLower(s)))));
      Trim(Squeeze(DashSpaces(s)));
      Trim(s);
      s;
    }
  }

  lemma {:induction false} LowerSlug(s: string)
    requires forall i :: 0 <= i < |s| ==> IsSlugChar(s[i])
    ensures ToLower(s) == s
  {
    if s != [] {
      LowerSlug(s[1..]);
    }
  }

  lemma {:induction false} KeepSlug(s: string)
    requires forall i :: 0 <= i < |s| ==> IsSlugChar(s[i])
    ensures KeepSlugChars(s) == s
  {
    if s != [] {
      KeepSlug(s[1..]);
    }
  }

  lemma {:induction false} DashSpacesNoSpace(s: string)
    requires forall i :: 0 <= i < |s| ==> !IsJsSpace(s[i])
    ensures DashSpaces(s) == s
  {
    if s != [] {
      DashSpacesNoSpace(s[1..]);
    }
  }

  lemma {:induction false} SqueezeNoDoubleDash(s: string)
    requires NoDoubleDash(s)
    ensures Squeeze(s) == s
    decreases |s|
  {
    if s != [] {
      assert NoDoubleDash(s[1..]);
      SqueezeNoDoubleDash(s[1..]);
      if s[0] == '-' && |s| > 1 {
        assert s[1] != '-';
      }
    }
  }

  /** A character that neither is nor lower-cases to a slug character or
      white space. */
  predicate NoSlugSource(c: char) {
    !IsSlugChar(c) && !IsJsSpace(c) && !('A' <= c <= 'Z') && c != '\U{212A}' && c != '\U{130}'
  }

  /** A title with no Latin letter, digit, space or `-` (an Arabic title,
      say) gives the empty slug. */
  lemma {:induction false} NoLatinGivesEmpty(title: string)
    requires forall i :: 0 <= i < |title| ==> NoSlugSource(title[i])
    ensures GenerateSlug(title) == ""
  {
    NoLatinKeepsNothing(title);
  }

  lemma {:induction false} NoLatinKeepsNothing(title: string)
    requires forall i :: 0 <= i < |title| ==> NoSlugSource(title[i])
    ensures KeepSlugChars(ToLower(title)) == ""
  {
    if title != [] {
      NoLatinKeepsNothing(title[1..]);
      assert ToLower(title) == [title[0]] + ToLower(title[1..]);
    }
  }

  /** `trim` runs last and removes white space only, so a title that
      starts with white space gives a slug that starts with `-`. */
  lemma LeadingSpaceGivesLeadingDash(title: string)
    requires title != [] && IsJsSpace(title[0])
    ensures GenerateSlug(title) != [] && GenerateSlug(title)[0] == '-'
  {
    var k := KeepSlugChars(ToLower(title));
    assert k[0] == title[0];
    var s := Squeeze(DashSpaces(k));
    SqueezedSlugChars(title);
    NoSpaceInSlugChars(s);
  }
}
