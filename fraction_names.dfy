/**
 * How the coordinator turns a fraction name sent by the endpoint into a translation key
 * (`_fraction_name_to_snake_case`) and looks the key up (`_translate_fraction_name`).
 */
module FractionNames {
  import opened Wrappers
  import opened Text

  /** The characters `[a-z0-9]` that survive into a key. */
  predicate IsKeyChar(c: char) { 'a' <= c <= 'z' || '0' <= c <= '9' }

  predicate KeyCharsOrUnderscore(s: string)
  {
    forall i :: 0 <= i < |s| ==> IsKeyChar(s[i]) || s[i] == '_'
  }

  predicate NoDoubleUnderscore(s: string)
  {
    forall i :: 0 <= i < |s| - 1 ==> s[i] == '_' ==> s[i + 1] != '_'
  }

  /** The shape of every derived key: `[a-z0-9_]*`, no `_` at either end, no `__`. */
  predicate IsKey(k: string)
  {
    && KeyCharsOrUnderscore(k)
    && NoDoubleUnderscore(k)
    && (k != [] ==> k[0] != '_' && k[|k| - 1] != '_')
  }

  /** The first index at or after `from` that holds `c`. */
  function IndexOf(s: string, c: char, from: nat): (r: Option<nat>)
    requires from <= |s|
    ensures r.Some? ==> from <= r.value < |s| && s[r.value] == c
    ensures r.Some? ==> forall j :: from <= j < r.value ==> s[j] != c
    ensures r.None? ==> forall j :: from <= j < |s| ==> s[j] != c
    decreases |s| - from
  {
    if from == |s| then None else if s[from] == c then Some(from) else IndexOf(s, c, from + 1)
  }

  /** Where the run of whitespace that ends just before index `p` begins (what a leading `\s*` takes). */
  function SpaceRunStart(s: string, p: nat): (w: nat)
    requires p <= |s|
    ensures w <= p
  {
    if p > 0 && s[p - 1] in Whitespace then SpaceRunStart(s, p - 1) else p
  }

  /** Where the run of whitespace that starts at index `q` ends (what a trailing `\s*` takes). */
  function SpaceRunEnd(s: string, q: nat): (e: nat)
    requires q <= |s|
    ensures q <= e <= |s|
    decreases |s| - q
  {
    if q < |s| && s[q] in Whitespace then SpaceRunEnd(s, q + 1) else q
  }

  /**
   * `re.sub(r'\s*\([^)]*\)\s*', '_', s)`: every parenthesised group, with the whitespace
   * around it, becomes one underscore. Matches are found left to right; a `(` without a
   * later `)` is left alone, and so is everything after it.
   */
  function StripParenGroups(s: string): (r: string)
    ensures '(' !in s ==> r == s
    ensures |r| <= |s|
    decreases |s|
  {
    match IndexOf(s, '(', 0)
    case None => s
    case Some(p) =>
      match IndexOf(s, ')', p + 1)
      case None => s
      case Some(q) =>
        var w := SpaceRunStart(s, p);
        var e := SpaceRunEnd(s, q + 1);
        s[..w] + "_" + StripParenGroups(s[e..])
  }

  /** Drops the leading run of characters outside `[a-z0-9]`. */
  function DropNonKeyChars(s: string): (r: string)
    ensures |r| <= |s| && (s != [] && !IsKeyChar(s[0]) ==> |r| < |s|)
    ensures r == [] || IsKeyChar(r[0])
  {
    if s != [] && !IsKeyChar(s[0]) then DropNonKeyChars(s[1..]) else s
  }

  /** A string that ends in a key character keeps that character. */
  lemma {:induction false} DropNonKeyCharsKeepsLast(s: string)
    requires s != [] && IsKeyChar(s[|s| - 1])
    ensures DropNonKeyChars(s) != [] && DropNonKeyChars(s)[|DropNonKeyChars(s)| - 1] == s[|s| - 1]
    decreases |s|
  {
    if !IsKeyChar(s[0]) {
      DropNonKeyCharsKeepsLast(s[1..]);
    }
  }

  /** `re.sub(r'[^a-z0-9]+', '_', s)`: each maximal run of other characters becomes one underscore. */
  function ReplaceNonKeyRuns(s: string): (r: string)
    ensures s != [] && IsKeyChar(s[0]) ==> r != [] && r[0] == s[0]
    decreases |s|
  {
    if s == [] then []
    else if IsKeyChar(s[0]) then [s[0]] + ReplaceNonKeyRuns(s[1..])
    else "_" + ReplaceNonKeyRuns(DropNonKeyChars(s))
  }

  /** What the run replacement leaves: key characters and single underscores. */
  lemma {:induction false} ReplaceNonKeyRunsShape(s: string)
    ensures KeyCharsOrUnderscore(ReplaceNonKeyRuns(s))
    ensures NoDoubleUnderscore(ReplaceNonKeyRuns(s))
    decreases |s|
  {
    if s != [] {
      var t := if IsKeyChar(s[0]) then s[1..] else DropNonKeyChars(s);
      var c := if IsKeyChar(s[0]) then s[0] else '_';
      var rest := ReplaceNonKeyRuns(t);
      ReplaceNonKeyRunsShape(t);
      assert ReplaceNonKeyRuns(s) == [c] + rest;
      assert forall i :: 1 <= i < |rest| + 1 ==> ([c] + rest)[i] == rest[i - 1];
    }
  }

  /** `re.sub(r'_+', '_', s)`: each run of underscores becomes one underscore. */
  function SqueezeUnderscores(s: string): (r: string)
    ensures '_' !in s ==> r == s
    ensures |r| <= |s|
    decreases |s|
  {
    if s == [] then []
    else if s[0] != '_' then [s[0]] + SqueezeUnderscores(s[1..])
    else "_" + SqueezeUnderscores(StripLeading(s, {'_'}))
  }

  /** `_fraction_name_to_snake_case`: the translation key of a fraction name. */
  function FractionKey(name: string): (k: string)
    ensures IsKey(k)
  {
    var replaced := ReplaceNonKeyRuns(StripParenGroups(Lower(name)));
    ReplaceNonKeyRunsShape(StripParenGroups(Lower(name)));
    var squeezed := SqueezeUnderscores(replaced);
    SqueezeIsIdentity(replaced);
    KeyOfTrimmed(squeezed);
    StripChars(squeezed, {'_'})
  }

  /** `_translate_fraction_name`: the table's entry for the name's key, else the name itself. */
  function Translate(name: string, table: map<string, string>): (r: string)
    ensures FractionKey(name) in table ==> r == table[FractionKey(name)]
    ensures FractionKey(name) !in table ==> r == name
  {
    var key := FractionKey(name);
    if key in table then table[key] else name
  }

  /** After the run replacement, the underscore squeeze has nothing left to do. */
  lemma {:induction false} SqueezeIsIdentity(s: string)
    requires NoDoubleUnderscore(s)
    ensures SqueezeUnderscores(s) == s
    decreases |s|
  {
    if s != [] {
      if s[0] != '_' {
        SqueezeIsIdentity(s[1..]);
      } else {
        assert StripLeading(s, {'_'}) == s[1..] by {
          if |s| > 1 {
            assert s[1..][0] == s[1] && s[1] != '_';
          }
        }
        SqueezeIsIdentity(s[1..]);
      }
    }
  }

  /** Trimming underscores off a string of key characters without `__` leaves a key. */
  lemma KeyOfTrimmed(s: string)
    requires KeyCharsOrUnderscore(s) && NoDoubleUnderscore(s)
    ensures IsKey(StripChars(s, {'_'}))
  {
    var pre, post := StripCharsShape(s, {'_'});
    var k := StripChars(s, {'_'});
    assert forall i :: 0 <= i < |k| ==> k[i] == s[|pre| + i];
  }

  /** On a string already made of key characters without `__`, the run replacement changes nothing. */
  lemma {:induction false} ReplaceNonKeyRunsFixes(s: string)
    requires KeyCharsOrUnderscore(s) && NoDoubleUnderscore(s)
    ensures ReplaceNonKeyRuns(s) == s
    decreases |s|
  {
    if s != [] {
      if IsKeyChar(s[0]) {
        ReplaceNonKeyRunsFixes(s[1..]);
      } else {
        assert DropNonKeyChars(s) == s[1..] by {
          if |s| == 1 {
            assert DropNonKeyChars(s) == DropNonKeyChars(s[1..]);
          }
        }
        ReplaceNonKeyRunsFixes(s[1..]);
      }
    }
  }

  /** A derived key is its own key. */
  lemma {:induction false} FractionKeyOfKey(k: string)
    requires IsKey(k)
    ensures FractionKey(k) == k
  {
    assert Lower(k) == k;
    assert forall j :: 0 <= j < |k| ==> k[j] != '(';
    assert StripParenGroups(k) == k;
    ReplaceNonKeyRunsFixes(k);
    SqueezeIsIdentity(k);
    StripCharsOfStripped(k, {'_'});
  }

  /** Deriving the key of a key changes nothing. */
  lemma FractionKeyIdempotent(name: string)
    ensures FractionKey(FractionKey(name)) == FractionKey(name)
  {
    FractionKeyOfKey(FractionKey(name));
  }

  /** With no translation table loaded, every name is shown as the endpoint sent it. */
  lemma TranslateWithoutTable(name: string)
    ensures Translate(name, map[]) == name
  {
  }

  /** Dropping the leading separator run does not look past a key character. */
  lemma {:induction false} DropNonKeyCharsConcat(a: string, b: string)
    requires a != [] && IsKeyChar(a[|a| - 1])
    ensures DropNonKeyChars(a + b) == DropNonKeyChars(a) + b
    decreases |a|
  {
    if !IsKeyChar(a[0]) {
      assert (a + b)[1..] == a[1..] + b;
      DropNonKeyCharsConcat(a[1..], b);
    }
  }

  /** The run replacement works piece by piece when the first piece ends in a key character. */
  lemma {:induction false} ReplaceNonKeyRunsConcat(a: string, b: string)
    requires a != [] && IsKeyChar(a[|a| - 1])
    ensures ReplaceNonKeyRuns(a + b) == ReplaceNonKeyRuns(a) + ReplaceNonKeyRuns(b)
    decreases |a|
  {
    if IsKeyChar(a[0]) {
      if |a| > 1 {
        ReplaceNonKeyRunsConcat(a[1..], b);
      } else {
        assert a[1..] + b == b;
      }
      ConcatAfterKeyChar(a, b);
    } else {
      DropNonKeyCharsKeepsLast(a);
      ReplaceNonKeyRunsConcat(DropNonKeyChars(a), b);
      ConcatAfterSeparator(a, b);
    }
  }

  /** One step of `ReplaceNonKeyRunsConcat` when the first piece opens with a key character. */
  lemma ConcatAfterKeyChar(a: string, b: string)
    requires a != [] && IsKeyChar(a[0])
    requires ReplaceNonKeyRuns(a[1..] + b) == ReplaceNonKeyRuns(a[1..]) + ReplaceNonKeyRuns(b)
    ensures ReplaceNonKeyRuns(a + b) == ReplaceNonKeyRuns(a) + ReplaceNonKeyRuns(b)
  {
    KeyCharHead(a);
    assert (a + b)[0] == a[0];
    assert (a + b)[1..] == a[1..] + b;
    KeyCharHead(a + b);
    PrependToSplit([a[0]], ReplaceNonKeyRuns(a[1..] + b), ReplaceNonKeyRuns(a[1..]), ReplaceNonKeyRuns(b));
  }

  /** A key character at the front is kept. */
  lemma KeyCharHead(s: string)
    requires s != [] && IsKeyChar(s[0])
    ensures ReplaceNonKeyRuns(s) == [s[0]] + ReplaceNonKeyRuns(s[1..])
  {
  }

  /** One step of `ReplaceNonKeyRunsConcat` when the first piece opens with a separator run. */
  lemma ConcatAfterSeparator(a: string, b: string)
    requires a != [] && !IsKeyChar(a[0]) && IsKeyChar(a[|a| - 1])
    requires ReplaceNonKeyRuns(DropNonKeyChars(a) + b) == ReplaceNonKeyRuns(DropNonKeyChars(a)) + ReplaceNonKeyRuns(b)
    ensures ReplaceNonKeyRuns(a + b) == ReplaceNonKeyRuns(a) + ReplaceNonKeyRuns(b)
  {
    var d := DropNonKeyChars(a);
    DropNonKeyCharsConcat(a, b);
    SeparatorRun(a);
    assert (a + b)[0] == a[0];
    SeparatorRun(a + b);
    PrependToSplit("_", ReplaceNonKeyRuns(d + b), ReplaceNonKeyRuns(d), ReplaceNonKeyRuns(b));
  }

  /** A separator run at the front becomes one `_`. */
  lemma SeparatorRun(s: string)
    requires s != [] && !IsKeyChar(s[0])
    ensures ReplaceNonKeyRuns(s) == "_" + ReplaceNonKeyRuns(DropNonKeyChars(s))
  {
  }

  /** A word of key characters followed by a separator run becomes the word and one `_`. */
  lemma WordThenSeparator(w: string, sep: string, rest: string)
    requires w != [] && IsWord(w)
    requires IsSeparator(sep) && (rest == [] || IsKeyChar(rest[0]))
    ensures ReplaceNonKeyRuns(w + sep + rest) == w + "_" + ReplaceNonKeyRuns(rest)
  {
    var t := sep + rest;
    assert w + sep + rest == w + t;
    assert ReplaceNonKeyRuns(w) == w by {
      ReplaceNonKeyRunsFixes(w);
    }
    assert ReplaceNonKeyRuns(w + t) == ReplaceNonKeyRuns(w) + ReplaceNonKeyRuns(t) by {
      ReplaceNonKeyRunsConcat(w, t);
    }
    SeparatorThenRest(sep, rest);
    PrependToSplit(w, "_" + ReplaceNonKeyRuns(rest), "_", ReplaceNonKeyRuns(rest));
  }

  /** A separator run followed by a key character or nothing becomes one `_`. */
  lemma SeparatorThenRest(sep: string, rest: string)
    requires IsSeparator(sep) && (rest == [] || IsKeyChar(rest[0]))
    ensures ReplaceNonKeyRuns(sep + rest) == "_" + ReplaceNonKeyRuns(rest)
  {
    assert (sep + rest)[0] == sep[0];
    SeparatorRun(sep + rest);
    DropSeparator(sep, rest);
  }

  /** Dropping the leading run removes exactly the separator. */
  lemma {:induction false} DropSeparator(sep: string, rest: string)
    requires forall i :: 0 <= i < |sep| ==> !IsKeyChar(sep[i])
    requires rest == [] || IsKeyChar(rest[0])
    ensures DropNonKeyChars(sep + rest) == rest
    decreases |sep|
  {
    if sep == [] {
      assert sep + rest == rest;
    } else {
      assert (sep + rest)[0] == sep[0];
      assert (sep + rest)[1..] == sep[1..] + rest;
      DropSeparator(sep[1..], rest);
    }
  }

  predicate IsWord(w: string)
  {
    forall i :: 0 <= i < |w| ==> IsKeyChar(w[i])
  }

  /** A non-empty run of characters that are not key characters, such as " ", ", " or " - ". */
  predicate IsSeparator(sep: string)
  {
    sep != [] && forall i :: 0 <= i < |sep| ==> !IsKeyChar(sep[i])
  }

  /** `words[0] + seps[0] + words[1] + ... + words[|seps|]`. */
  function Joined(words: seq<string>, seps: seq<string>): string
    requires |words| == |seps| + 1
    decreases |seps|
  {
    if seps == [] then words[0] else words[0] + seps[0] + Joined(words[1..], seps[1..])
  }

  /** Words of key characters (only the last may be empty), each but the last followed by a separator run. */
  predicate Separated(words: seq<string>, seps: seq<string>)
  {
    && |words| == |seps| + 1
    && (forall i :: 0 <= i < |seps| ==> words[i] != [] && IsWord(words[i]) && IsSeparator(seps[i]))
    && IsWord(words[|seps|])
  }

  /** `n` separators, each a single `_`. */
  function Underscores(n: nat): (u: seq<string>)
    ensures |u| == n && forall i :: 0 <= i < n ==> u[i] == "_"
  {
    if n == 0 then [] else ["_"] + Underscores(n - 1)
  }

  /** A text of separated words comes out of the run replacement as the words joined by `_`. */
  lemma {:induction false} ReplaceJoined(words: seq<string>, seps: seq<string>)
    requires Separated(words, seps)
    ensures ReplaceNonKeyRuns(Joined(words, seps)) == Joined(words, Underscores(|seps|))
    decreases |seps|
  {
    if seps == [] {
      ReplaceNonKeyRunsFixes(words[0]);
    } else {
      var ws, ss := words[1..], seps[1..];
      SeparatedTail(words, seps);
      var rest := Joined(ws, ss);
      assert rest == [] || IsKeyChar(rest[0]) by {
        if ss != [] {
          assert rest[0] == ws[0][0];
        }
      }
      WordThenSeparator(words[0], seps[0], rest);
      ReplaceJoined(ws, ss);
      var us := Underscores(|seps|);
      assert us[1..] == Underscores(|ss|);
      assert Joined(words, us) == words[0] + "_" + Joined(ws, Underscores(|ss|));
    }
  }

  /** A joined text starts with the first word's first character and ends with the last word's last. */
  lemma {:induction false} JoinedEnds(words: seq<string>, seps: seq<string>)
    requires Separated(words, seps) && words[|seps|] != []
    ensures var j := Joined(words, seps);
      j != [] && j[0] == words[0][0] && j[|j| - 1] == words[|seps|][|words[|seps|]| - 1]
    decreases |seps|
  {
    if seps != [] {
      SeparatedTail(words, seps);
      JoinedEnds(words[1..], seps[1..]);
      var head, rest := words[0] + seps[0], Joined(words[1..], seps[1..]);
      assert Joined(words, seps) == head + rest;
      assert (head + rest)[0] == head[0];
      assert (head + rest)[|head| + |rest| - 1] == rest[|rest| - 1];
    }
  }

  /** Dropping the first word and separator leaves separated words. */
  lemma SeparatedTail(words: seq<string>, seps: seq<string>)
    requires Separated(words, seps) && seps != []
    ensures Separated(words[1..], seps[1..])
    ensures words[1..][|seps[1..]|] == words[|seps|]
  {
    var ws, ss := words[1..], seps[1..];
    assert forall i :: 0 <= i < |ss| ==> ws[i] == words[i + 1] && ss[i] == seps[i + 1];
  }

  /** The words joined by `_` form a key. */
  lemma JoinedKey(words: seq<string>, seps: seq<string>)
    requires Separated(words, seps) && words[|seps|] != []
    ensures IsKey(Joined(words, Underscores(|seps|)))
  {
    ReplaceJoined(words, seps);
    ReplaceNonKeyRunsShape(Joined(words, seps));
    var us := Underscores(|seps|);
    assert Separated(words, us) by {
      assert forall i :: 0 <= i < |us| ==> IsSeparator(us[i]) by {
        assert IsSeparator("_");
      }
    }
    JoinedEnds(words, us);
  }

  /** A key followed by one `_`: the squeeze keeps it and the trim drops the `_`. */
  lemma KeyThenUnderscore(key: string)
    requires IsKey(key) && key != []
    ensures SqueezeUnderscores(key + "_") == key + "_"
    ensures StripChars(key + "_", {'_'}) == key
  {
    var k := key + "_";
    assert NoDoubleUnderscore(k) by {
      assert forall i :: 0 <= i < |key| ==> k[i] == key[i];
    }
    SqueezeIsIdentity(k);
    assert StripLeading(k, {'_'}) == k;
    assert k[..|k| - 1] == key;
    assert StripTrailing(key, {'_'}) == key;
  }

  /** The key of a name that lowercases to separated words: the words joined by `_`. */
  lemma KeyOfWords(name: string, words: seq<string>, seps: seq<string>)
    requires Separated(words, seps) && words[|seps|] != []
    requires Lower(name) == Joined(words, seps)
    requires '(' !in Lower(name)
    ensures FractionKey(name) == Joined(words, Underscores(|seps|))
  {
    var l := Lower(name);
    var key := Joined(words, Underscores(|seps|));
    assert StripParenGroups(l) == l by {
      assert forall j :: 0 <= j < |l| ==> l[j] != '(';
    }
    ReplaceJoined(words, seps);
    JoinedKey(words, seps);
    SqueezeIsIdentity(key);
    StripCharsOfStripped(key, {'_'});
  }

  lemma KeyCharIsNotSpace(c: char)
    requires IsKeyChar(c)
    ensures c !in Whitespace
  {
  }

  /** A trailing group after one space, `x (inner)`, becomes `x_`. */
  lemma StripTrailingGroup(x: string, inner: string)
    requires '(' !in x && ')' !in inner && x != [] && x[|x| - 1] !in Whitespace
    ensures StripParenGroups(x + " (" + inner + ")") == x + "_"
  {
    var s := x + " (" + inner + ")";
    var p, q := |x| + 1, |s| - 1;
    assert s[p - 1] == ' ' && s[p] == '(' && s[q] == ')' && s[p - 2] == x[|x| - 1];
    assert forall j :: 0 <= j < |x| ==> s[j] == x[j];
    assert forall j :: p + 1 <= j < q ==> s[j] == inner[j - p - 1];
    assert IndexOf(s, '(', 0) == Some(p);
    assert IndexOf(s, ')', p + 1) == Some(q);
    assert SpaceRunStart(s, p) == SpaceRunStart(s, p - 1) == |x|;
    assert SpaceRunEnd(s, q + 1) == |s|;
    assert s[..|x|] == x;
    assert s[|s|..] == [];
  }

  /** As `KeyOfWords`, for a name that ends in one parenthesised group after a space. */
  lemma KeyOfWordsAndGroup(name: string, words: seq<string>, seps: seq<string>, inner: string)
    requires Separated(words, seps) && words[|seps|] != []
    requires Lower(name) == Joined(words, seps) + " (" + inner + ")"
    requires '(' !in Joined(words, seps)
    requires ')' !in inner
    ensures FractionKey(name) == Joined(words, Underscores(|seps|))
  {
    var x := Joined(words, seps);
    var key := Joined(words, Underscores(|seps|));
    JoinedEnds(words, seps);
    GroupDropped(x, inner);
    JoinedThenUnderscore(words, seps);
    JoinedKey(words, seps);
    JoinedEnds(words, Underscores(|seps|));
    KeyThenUnderscore(key);
  }

  /** The trailing group of a joined text that ends in a key character becomes `_`. */
  lemma GroupDropped(x: string, inner: string)
    requires x != [] && IsKeyChar(x[|x| - 1]) && '(' !in x && ')' !in inner
    ensures StripParenGroups(x + " (" + inner + ")") == x + "_"
  {
    KeyCharIsNotSpace(x[|x| - 1]);
    StripTrailingGroup(x, inner);
  }

  /** Separated words and a final `_` become the words joined by `_`, and the `_`. */
  lemma JoinedThenUnderscore(words: seq<string>, seps: seq<string>)
    requires Separated(words, seps) && words[|seps|] != []
    ensures ReplaceNonKeyRuns(Joined(words, seps) + "_") == Joined(words, Underscores(|seps|)) + "_"
  {
    var x := Joined(words, seps);
    JoinedEnds(words, seps);
    ReplaceNonKeyRunsConcat(x, "_");
    ReplaceJoined(words, seps);
    assert ReplaceNonKeyRuns("_") == "_" by {
      SeparatorThenRest("_", []);
      assert "_" + [] == "_";
    }
  }

  lemma ConcatAssoc(a: string, b: string, c: string)
    ensures a + (b + c) == a + b + c
  {
  }

  /** Appending a separator and a word to the arguments appends them to the joined text. */
  lemma {:induction false} JoinedSnoc(words: seq<string>, seps: seq<string>, sep: string, word: string)
    requires |words| == |seps| + 1
    ensures Joined(words + [word], seps + [sep]) == Joined(words, seps) + sep + word
    decreases |seps|
  {
    var ws, ss := words + [word], seps + [sep];
    assert ws[0] == words[0] && ss[0] == (if seps == [] then sep else seps[0]);
    if seps == [] {
      assert ws[1..] == [word] && ss[1..] == [];
      ConcatAssoc(words[0], sep, word);
    } else {
      assert ws[1..] == words[1..] + [word] && ss[1..] == seps[1..] + [sep];
      JoinedSnoc(words[1..], seps[1..], sep, word);
      var head, mid := words[0] + seps[0], Joined(words[1..], seps[1..]);
      assert Joined(ws, ss) == head + (mid + sep + word);
      ConcatAssoc(head, mid + sep, word);
      ConcatAssoc(head, mid, sep);
    }
  }

  /** `Joined` of four words, written out. */
  lemma JoinedFour(ws: seq<string>, ss: seq<string>)
    requires |ws| == 4 && |ss| == 3
    ensures Joined(ws, ss) == ws[0] + ss[0] + ws[1] + ss[1] + ws[2] + ss[2] + ws[3]
  {
    assert Joined([ws[0]], []) == ws[0];
    JoinedSnoc([ws[0]], [], ss[0], ws[1]);
    JoinedSnoc([ws[0], ws[1]], [ss[0]], ss[1], ws[2]);
    JoinedSnoc([ws[0], ws[1], ws[2]], [ss[0], ss[1]], ss[2], ws[3]);
    assert [ws[0]] + [ws[1]] == [ws[0], ws[1]] && [] + [ss[0]] == [ss[0]];
    assert [ws[0], ws[1]] + [ws[2]] == [ws[0], ws[1], ws[2]] && [ss[0]] + [ss[1]] == [ss[0], ss[1]];
    assert [ws[0], ws[1], ws[2]] + [ws[3]] == ws && [ss[0], ss[1]] + [ss[2]] == ss;
  }

  /** `Joined` of five words, written out. */
  lemma JoinedFive(ws: seq<string>, ss: seq<string>)
    requires |ws| == 5 && |ss| == 4
    ensures Joined(ws, ss) == ws[0] + ss[0] + ws[1] + ss[1] + ws[2] + ss[2] + ws[3] + ss[3] + ws[4]
  {
    var ws4, ss3 := [ws[0], ws[1], ws[2], ws[3]], [ss[0], ss[1], ss[2]];
    JoinedFour(ws4, ss3);
    JoinedSnoc(ws4, ss3, ss[3], ws[4]);
    assert ws4 + [ws[4]] == ws && ss3 + [ss[3]] == ss;
  }

  /** The key of "Opakowania ze szkła": `ł` is not a key character, so it splits the last word. */
  lemma GlassKey()
    ensures FractionKey("Opakowania ze szkła") == "opakowania_ze_szk_a"
  {
    GlassKeyOf("Opakowania ze szkła", ["opakowania", "ze", "szk", "a"], [" ", " ", "ł"]);
  }

  lemma GlassKeyOf(name: string, ws: seq<string>, ss: seq<string>)
    requires name == "Opakowania ze szkła"
    requires ws == ["opakowania", "ze", "szk", "a"] && ss == [" ", " ", "ł"]
    ensures FractionKey(name) == "opakowania_ze_szk_a"
  {
    GlassSeparated(ws, ss);
    GlassJoined(ws);
    GlassLower(name);
    JoinedFour(ws, ss);
    KeyOfWords(name, ws, ss);
  }

  lemma GlassSeparated(ws: seq<string>, ss: seq<string>)
    requires ws == ["opakowania", "ze", "szk", "a"] && ss == [" ", " ", "ł"]
    ensures Separated(ws, ss) && ws[|ss|] != []
  {
    assert IsWord(ws[0]) && IsWord(ws[1]) && IsWord(ws[2]) && IsWord(ws[3]) by {
      assert ws[0] == "opakowania" && ws[1] == "ze" && ws[2] == "szk" && ws[3] == "a";
    }
  }

  lemma GlassJoined(ws: seq<string>)
    requires ws == ["opakowania", "ze", "szk", "a"]
    ensures Joined(ws, Underscores(3)) == "opakowania_ze_szk_a"
  {
    var us := Underscores(3);
    JoinedFour(ws, us);
    var key := ws[0] + us[0] + ws[1] + us[1] + ws[2] + us[2] + ws[3];
    assert |key| == 19;
    assert forall i :: 0 <= i < 19 ==> key[i] == "opakowania_ze_szk_a"[i];
  }

  lemma GlassLower(name: string)
    requires name == "Opakowania ze szkła"
    ensures Lower(name) == "opakowania" + [' '] + "ze" + [' '] + "szk" + ['ł'] + "a"
  {
    var l, t := Lower(name), "opakowania" + [' '] + "ze" + [' '] + "szk" + ['ł'] + "a";
    assert |l| == |t| == 19;
    assert name[0] == 'O' && ('O' as int) == 79 && (111 as char) == 'o';
    assert l[0] == 'o';
    assert forall i :: 0 <= i < 19 ==> l[i] == t[i];
  }

  /**
   * The key of "Odpady kuchenne ulegające biodegradacji (bio)" (written in three pieces):
   * the group is dropped and `ą` splits a word.
   */
  lemma BioKey()
    ensures FractionKey("Odpady kuchenne " + "ulegające " + "biodegradacji (bio)")
         == "odpady_kuchenne_" + "ulegaj_ce_" + "biodegradacji"
  {
    BioKeyOf(
      "Odpady kuchenne " + "ulegające " + "biodegradacji (bio)",
      ["odpady", "kuchenne", "ulegaj", "ce", "biodegradacji"], [" ", " ", "ą", " "]);
  }

  lemma BioKeyOf(name: string, ws: seq<string>, ss: seq<string>)
    requires name == "Odpady kuchenne " + "ulegające " + "biodegradacji (bio)"
    requires ws == ["odpady", "kuchenne", "ulegaj", "ce", "biodegradacji"] && ss == [" ", " ", "ą", " "]
    ensures FractionKey(name) == "odpady_kuchenne_" + "ulegaj_ce_" + "biodegradacji"
  {
    BioSeparated(ws, ss);
    BioNoGroup(ws, ss);
    BioJoined(ws);
    BioLower(name);
    JoinedFive(ws, ss);
    KeyOfWordsAndGroup(name, ws, ss, "bio");
  }

  lemma BioSeparated(ws: seq<string>, ss: seq<string>)
    requires ws == ["odpady", "kuchenne", "ulegaj", "ce", "biodegradacji"] && ss == [" ", " ", "ą", " "]
    ensures Separated(ws, ss) && ws[|ss|] != []
  {
    assert IsWord(ws[0]) && IsWord(ws[1]) && IsWord(ws[2]) by {
      assert ws[0] == "odpady" && ws[1] == "kuchenne" && ws[2] == "ulegaj";
    }
    assert IsWord(ws[3]) && IsWord(ws[4]) by {
      assert ws[3] == "ce" && ws[4] == "biodegradacji";
    }
  }

  lemma BioNoGroup(ws: seq<string>, ss: seq<string>)
    requires ws == ["odpady", "kuchenne", "ulegaj", "ce", "biodegradacji"] && ss == [" ", " ", "ą", " "]
    ensures '(' !in Joined(ws, ss)
  {
    JoinedFive(ws, ss);
    assert '(' !in ws[0] + ss[0] + ws[1] + ss[1] + ws[2];
    assert '(' !in ss[2] + ws[3] + ss[3] + ws[4];
  }

  lemma BioJoined(ws: seq<string>)
    requires ws == ["odpady", "kuchenne", "ulegaj", "ce", "biodegradacji"]
    ensures Joined(ws, Underscores(4)) == "odpady_kuchenne_" + "ulegaj_ce_" + "biodegradacji"
  {
    var us := Underscores(4);
    JoinedFive(ws, us);
    assert ws[0] + us[0] + ws[1] + us[1] == "odpady_kuchenne_";
    assert ws[2] + us[2] + ws[3] + us[3] == "ulegaj_ce_";
  }

  lemma BioLower(name: string)
    requires name == "Odpady kuchenne " + "ulegające " + "biodegradacji (bio)"
    ensures Lower(name) == "odpady" + [' '] + "kuchenne" + [' '] + "ulegaj" + ['ą'] + "ce" + [' '] + "biodegradacji" + " (" + "bio" + ")"
  {
    var a, b, c := "Odpady kuchenne ", "ulegające ", "biodegradacji (bio)";
    assert Lower(name) == Lower(a) + Lower(b) + Lower(c) by {
      LowerConcat(a + b, c);
      LowerConcat(a, b);
    }
    BioLowerFirst(a);
    BioLowerSecond(b);
    BioLowerThird(c);
    var x := "odpady" + [' '] + "kuchenne" + [' '];
    ConcatAppendFour(x, "ulegaj", ['ą'], "ce", [' ']);
    ConcatAppendFour(x + "ulegaj" + ['ą'] + "ce" + [' '], "biodegradacji", " (", "bio", ")");
  }

  /** Appending four pieces joined is appending them one at a time. */
  lemma ConcatAppendFour(a: string, b: string, c: string, d: string, e: string)
    ensures a + (b + c + d + e) == a + b + c + d + e
  {
  }

  /** Only the capital that opens the name changes. */
  lemma BioLowerFirst(a: string)
    requires a == "Odpady kuchenne "
    ensures Lower(a) == "odpady" + [' '] + "kuchenne" + [' ']
  {
    var l, t := Lower(a), "odpady" + [' '] + "kuchenne" + [' '];
    assert |l| == |t| == 16;
    assert a[0] == 'O' && ('O' as int) == 79 && (111 as char) == 'o';
    assert l[0] == 'o';
    assert forall i :: 0 <= i < 16 ==> l[i] == t[i];
  }

  lemma BioLowerSecond(b: string)
    requires b == "ulegające "
    ensures Lower(b) == "ulegaj" + ['ą'] + "ce" + [' ']
  {
    var l, t := Lower(b), "ulegaj" + ['ą'] + "ce" + [' '];
    assert |l| == |t| == 10;
    assert forall i :: 0 <= i < 10 ==> l[i] == t[i];
  }

  lemma BioLowerThird(c: string)
    requires c == "biodegradacji (bio)"
    ensures Lower(c) == "biodegradacji" + " (" + "bio" + ")"
  {
    var l, t := Lower(c), "biodegradacji" + " (" + "bio" + ")";
    assert |l| == |t| == 19;
    assert forall i :: 0 <= i < 19 ==> l[i] == t[i];
  }
}
