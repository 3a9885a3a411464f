/** String operations the core relies on: JavaScript's whitespace class and
    `trim`, `toLowerCase` (ASCII letters only), `includes`, `startsWith`,
    `split(' ')`, `join`, number-to-string, and the e-mail pattern
    `^\S+@\S+\.\S+$` both schemas use. */
module Text {

  /** JavaScript's `\s` class, which is also what `String.prototype.trim`
      removes: the ASCII blanks, no-break space, the Unicode space
      separators, the line and paragraph separators and the byte order mark. */
  predicate IsSpace(c: char)
  {
    || c == ' ' || c == '\t' || c == '\n' || c == '\r' || c == '\U{000B}' || c == '\U{000C}'
    || c == '\U{00A0}' || c == '\U{1680}' || ('\U{2000}' <= c <= '\U{200A}')
    || c == '\U{2028}' || c == '\U{2029}' || c == '\U{202F}' || c == '\U{205F}'
    || c == '\U{3000}' || c == '\U{FEFF}'
  }

  predicate IsBlank(s: string)
  {
    forall i | 0 <= i < |s| :: IsSpace(s[i])
  }

  function TrimStart(s: string): (r: string)
    ensures |r| <= |s|
    ensures r != [] ==> !IsSpace(r[0])
    ensures r == [] <==> IsBlank(s)
  {
    if s == [] || !IsSpace(s[0]) then s
    else
      var r := TrimStart(s[1..]);
      assert IsBlank(s[1..]) ==> IsBlank(s) by {
        if IsBlank(s[1..]) {
          forall i | 0 <= i < |s| ensures IsSpace(s[i]) {
            if i > 0 { assert s[i] == s[1..][i - 1]; }
          }
        }
      }
      r
  }

  /** What `TrimStart` keeps is a suffix of its input. */
  lemma {:induction false} TrimStartSuffix(s: string)
    ensures TrimStart(s) == s[|s| - |TrimStart(s)|..]
    decreases |s|
  {
    if s != [] && IsSpace(s[0]) {
      TrimStartSuffix(s[1..]);
    }
  }

  function TrimEnd(s: string): (r: string)
    ensures |r| <= |s|
    ensures r != [] ==> !IsSpace(r[|r| - 1])
    ensures r == [] <==> IsBlank(s)
  {
    if s == [] || !IsSpace(s[|s| - 1]) then s
    else
      var r := TrimEnd(s[..|s| - 1]);
      assert IsBlank(s[..|s| - 1]) ==> IsBlank(s) by {
        if IsBlank(s[..|s| - 1]) {
          forall i | 0 <= i < |s| ensures IsSpace(s[i]) {
            if i < |s| - 1 { assert s[i] == s[..|s| - 1][i]; }
          }
        }
      }
      r
  }

  /** What `TrimEnd` keeps is a prefix of its input. */
  lemma {:induction false} TrimEndPrefix(s: string)
    ensures TrimEnd(s) == s[..|TrimEnd(s)|]
    decreases |s|
  {
    if s != [] && IsSpace(s[|s| - 1]) {
      TrimEndPrefix(s[..|s| - 1]);
    }
  }

  /** `String.prototype.trim`, which Mongoose applies to every `trim: true`
      path when the value is assigned. */
  function Trim(s: string): (r: string)
  {
    TrimEnd(TrimStart(s))
  }

  /** A trimmed string neither starts nor ends with whitespace, it is a
      contiguous part of the input, and it is empty exactly when the input is
      all whitespace. */
  lemma TrimProperties(s: string)
    ensures var r := Trim(s);
      && (r != [] ==> !IsSpace(r[0]) && !IsSpace(r[|r| - 1]))
      && (r == [] <==> IsBlank(s))
      && exists i | 0 <= i <= |s| - |r| :: OccursAt(s, r, i)
  {
    var t := TrimStart(s);
    var r := TrimEnd(t);
    TrimStartSuffix(s);
    TrimEndPrefix(t);
    assert r != [] ==> r[0] == t[0];
    var i := |s| - |t|;
    assert OccursAt(s, r, i);
  }

  /** A string that neither starts nor ends with whitespace is its own
      trim. */
  lemma TrimUnpadded(s: string)
    requires s != [] && !IsSpace(s[0]) && !IsSpace(s[|s| - 1])
    ensures Trim(s) == s
  {
    assert TrimStart(s) == s;
  }

  /** Trimming twice is trimming once. */
  lemma TrimIdempotent(s: string)
    ensures Trim(Trim(s)) == Trim(s)
  {
    var r := Trim(s);
    TrimProperties(s);
    assert TrimStart(r) == r;
    assert TrimEnd(r) == r;
  }

  function LowerChar(c: char): char
  {
    if 'A' <= c <= 'Z' then (c as int + 32) as char else c
  }

  /** `String.prototype.toLowerCase` on ASCII letters. */
  function Lower(s: string): (r: string)
    ensures |r| == |s|
    ensures forall i | 0 <= i < |s| :: r[i] == LowerChar(s[i])
  {
    seq(|s|, i requires 0 <= i < |s| => LowerChar(s[i]))
  }

  lemma LowerIdempotent(s: string)
    ensures Lower(Lower(s)) == Lower(s)
  {
  }

  /** A lowercased, trimmed string is its own lowercase and its own trim:
      the `lowercase` and `trim` setters leave nothing for a second pass. */
  lemma TrimLowerIsNormal(s: string)
    ensures Lower(Trim(Lower(s))) == Trim(Lower(s))
    ensures Trim(Trim(Lower(s))) == Trim(Lower(s))
  {
    var l := Lower(s);
    TrimIdempotent(l);
    forall k | 0 <= k < |l| ensures LowerChar(l[k]) == l[k] {
      LowerCharIdempotent(s[k]);
    }
    LoweredTrimIsLower(l);
  }

  /** Trimming a lowercased string leaves a lowercased string. */
  lemma LoweredTrimIsLower(l: string)
    requires forall k | 0 <= k < |l| :: LowerChar(l[k]) == l[k]
    ensures Lower(Trim(l)) == Trim(l)
  {
    var t := TrimStart(l);
    var e := TrimEnd(t);
    TrimStartSuffix(l);
    TrimEndPrefix(t);
    InnerSliceLowered(l, t, e);
    LowerFixed(e);
  }

  lemma InnerSliceLowered(l: string, t: string, e: string)
    requires |t| <= |l| && t == l[|l| - |t|..]
    requires |e| <= |t| && e == t[..|e|]
    requires forall k | 0 <= k < |l| :: LowerChar(l[k]) == l[k]
    ensures forall k | 0 <= k < |e| :: LowerChar(e[k]) == e[k]
  {
    forall k | 0 <= k < |e| ensures LowerChar(e[k]) == e[k] {
      assert e[k] == l[|l| - |t| + k];
    }
  }

  /** A string with no upper-case ASCII letter is its own lowercase. */
  lemma LowerFixed(t: string)
    requires forall k | 0 <= k < |t| :: LowerChar(t[k]) == t[k]
    ensures Lower(t) == t
  {
  }

  lemma LowerCharIdempotent(c: char)
    ensures LowerChar(LowerChar(c)) == LowerChar(c)
  {
  }

  /** t occurs in s starting at index i. */
  predicate OccursAt(s: string, t: string, i: int)
  {
    0 <= i <= |s| - |t| && s[i..i + |t|] == t
  }

  /** `s.includes(t)`: t occurs in s as a contiguous substring. */
  predicate Contains(s: string, t: string)
  {
    exists i | 0 <= i <= |s| - |t| :: OccursAt(s, t, i)
  }

  /** A case-insensitive substring test: `a.toLowerCase().includes(b.toLowerCase())`,
      and the model of MongoDB's `{ $regex: b, $options: 'i' }` for a pattern
      without special characters. */
  predicate ContainsIgnoreCase(s: string, t: string)
  {
    Contains(Lower(s), Lower(t))
  }

  lemma ContainsEmpty(s: string)
    ensures Contains(s, "")
  {
    assert OccursAt(s, "", 0);
  }

  predicate StartsWith(s: string, prefix: string)
  {
    |prefix| <= |s| && s[..|prefix|] == prefix
  }

  /** `s.split(c)` for a one-character separator: the pieces between the
      occurrences of c, always at least one (the empty string splits into
      `[""]`). */
  function Split(s: string, c: char): (parts: seq<string>)
    ensures |parts| >= 1
    ensures forall k | 0 <= k < |parts| :: c !in parts[k]
  {
    if s == [] then [""]
    else
      var rest := Split(s[1..], c);
      if s[0] == c then [""] + rest
      else [[s[0]] + rest[0]] + rest[1..]
  }

  /** `parts.join(sep)`. */
  function Join(parts: seq<string>, sep: string): string
  {
    if |parts| == 0 then ""
    else if |parts| == 1 then parts[0]
    else parts[0] + sep + Join(parts[1..], sep)
  }

  /** Splitting and joining again with the same separator gives back the
      original string. */
  lemma {:induction false} JoinSplit(s: string, c: char)
    ensures Join(Split(s, c), [c]) == s
  {
    if s != [] {
      var rest := Split(s[1..], c);
      JoinSplit(s[1..], c);
      if s[0] == c {
        assert Split(s, c) == [""] + rest;
        assert ([""] + rest)[1..] == rest;
      } else {
        var parts := [[s[0]] + rest[0]] + rest[1..];
        if |rest| == 1 {
          assert Join(rest, [c]) == rest[0];
        } else {
          assert Join(rest, [c]) == rest[0] + [c] + Join(rest[1..], [c]);
          assert parts[1..] == rest[1..];
        }
        assert [s[0]] + s[1..] == s;
      }
    }
  }

  /** Joining pieces free of c with c and splitting on c again gives back the
      pieces. */
  lemma {:induction false} SplitJoin(parts: seq<string>, c: char)
    requires |parts| >= 1
    requires forall k | 0 <= k < |parts| :: c !in parts[k]
    ensures Split(Join(parts, [c]), c) == parts
    decreases |parts|, if |parts| > 0 then |parts[0]| else 0
  {
    if parts[0] == [] {
      if |parts| > 1 {
        var tail := Join(parts[1..], [c]);
        assert Join(parts, [c]) == [c] + tail;
        SplitJoin(parts[1..], c);
        assert ([c] + tail)[1..] == tail;
        assert [""] + parts[1..] == parts;
      }
    } else {
      var head := parts[0];
      var shorter := [head[1..]] + parts[1..];
      SplitJoin(shorter, c);
      var s := Join(parts, [c]);
      assert Join(shorter, [c]) == s[1..] by {
        if |parts| == 1 {
        } else {
          assert shorter[1..] == parts[1..];
          assert s == head + [c] + Join(parts[1..], [c]);
        }
      }
      assert s[0] == head[0] != c;
      assert Split(s[1..], c) == shorter;
      assert [[head[0]] + head[1..]] + shorter[1..] == parts by {
        assert [head[0]] + head[1..] == head;
        assert shorter[1..] == parts[1..];
      }
    }
  }

  /** The decimal digits of a non-negative integer. */
  function NatToString(n: nat): (s: string)
    ensures |s| >= 1
    ensures forall k | 0 <= k < |s| :: '0' <= s[k] <= '9'
    decreases n
  {
    var d := [('0' as int + n % 10) as char];
    if n < 10 then d else NatToString(n / 10) + d
  }

  /** JavaScript's `String(n)` for an integer-valued number. */
  function IntToString(n: int): (s: string)
    ensures ',' !in s
  {
    if n >= 0 then NatToString(n) else "-" + NatToString(-n)
  }

  /** The e-mail pattern `^\S+@\S+\.\S+$`: no whitespace anywhere, and an `@`
      and a later `.` with at least one character before the `@`, between
      them, and after the `.`. */
  predicate IsEmailShaped(s: string)
  {
    && (forall k | 0 <= k < |s| :: !IsSpace(s[k]))
    && exists i, j | 1 <= i && i + 2 <= j <= |s| - 2 :: s[i] == '@' && s[j] == '.'
  }
}
