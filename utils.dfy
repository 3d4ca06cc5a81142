/**
 * Helpers (utils.go): nil-safe dereference, key slugs, the
 * "prefix:key" cache key, and random strings over an alphabet.
 * The three regular-expression replacements of slugify are written as
 * character-level functions.
 */
module Utils {
  import opened Wrappers

  /** safeValue: the pointee, or the fallback for a nil pointer. */
  function SafeValue<T>(value: Option<T>, fallback: T): (r: T)
    ensures value.None? ==> r == fallback
    ensures value.Some? ==> r == value.value
  {
    match value
    case None => fallback
    case Some(v) => v
  }

  /** Characters kept by `[^a-zA-Z0-9\-]` removal. */
  predicate IsSlugChar(ch: char) {
    ('a' <= ch <= 'z') || ('A' <= ch <= 'Z') || ('0' <= ch <= '9') || ch == '-'
  }

  /** RE2's `\s`: space, tab, newline, form feed, carriage return. */
  predicate IsSpace(ch: char) {
    ch == ' ' || ch == '\t' || ch == '\n' || ch == '\r' || ch as int == 12
  }

  predicate AllSlug(s: string) {
    forall i :: 0 <= i < |s| ==> IsSlugChar(s[i])
  }

  /** No two dashes in a row. */
  predicate NoDoubleDash(s: string) {
    forall i :: 0 <= i < |s| - 1 ==> !(s[i] == '-' && s[i + 1] == '-')
  }

  /** A letter or a digit: the characters every pass of slugify keeps. */
  predicate IsAlnum(ch: char) {
    ('a' <= ch <= 'z') || ('A' <= ch <= 'Z') || ('0' <= ch <= '9')
  }

  /** The letters and digits of `s`, in order. */
  function AlnumOf(s: string): string
    decreases |s|
  {
    if |s| == 0 then ""
    else if IsAlnum(s[0]) then [s[0]] + AlnumOf(s[1..])
    else AlnumOf(s[1..])
  }

  /** The keys written one after another. */
  function Concat(keys: seq<string>): string
    decreases |keys|
  {
    if |keys| == 0 then "" else keys[0] + Concat(keys[1..])
  }

  /** strings.Join(keys, sep): the keys in order with `sep` between
      consecutive ones (JoinAppend); a separator without letters or digits
      adds none. */
  function Join(keys: seq<string>, sep: string): (r: string)
    ensures |keys| > 0 ==> |keys[0]| <= |r| && r[..|keys[0]|] == keys[0]
    ensures |keys| > 1 ==> |keys[0]| + |sep| <= |r| && r[|keys[0]|..|keys[0]| + |sep|] == sep
    ensures AlnumOf(sep) == "" ==> AlnumOf(r) == AlnumOf(Concat(keys))
    decreases |keys|
  {
    if |keys| == 0 then ""
    else if |keys| == 1 then
      assert Concat(keys[1..]) == "";
      assert Concat(keys) == keys[0] + "" == keys[0];
      keys[0]
    else
      var rest := Join(keys[1..], sep);
      AlnumAppend(keys[0] + sep, rest);
      AlnumAppend(keys[0], sep);
      AlnumAppend(keys[0], Concat(keys[1..]));
      keys[0] + sep + rest
  }

  /** Delete every character outside [a-zA-Z0-9-], keeping the others in
      order: one character is kept or dropped on its own, and the deletion
      distributes over concatenation (StripInvalidAppend). */
  function StripInvalid(s: string): (r: string)
    ensures AllSlug(r)
    ensures |r| <= |s|
    ensures |s| == 1 ==> r == if IsSlugChar(s[0]) then s else ""
    ensures AlnumOf(r) == AlnumOf(s)
    decreases |s|
  {
    if |s| == 0 then ""
    else if IsSlugChar(s[0]) then [s[0]] + StripInvalid(s[1..])
    else StripInvalid(s[1..])
  }

  /** Replace every maximal run of whitespace with one '-' (DashSpacesRun,
      DashSpacesSingle): no whitespace is left, and the letters and digits
      stay as they were. */
  function DashSpaces(s: string): (r: string)
    ensures forall i :: 0 <= i < |r| ==> !IsSpace(r[i])
    ensures |r| <= |s|
    ensures AlnumOf(r) == AlnumOf(s)
    decreases |s|
  {
    if |s| == 0 then ""
    else if IsSpace(s[0]) && |s| >= 2 && IsSpace(s[1]) then DashSpaces(s[1..])
    else if IsSpace(s[0]) then "-" + DashSpaces(s[1..])
    else [s[0]] + DashSpaces(s[1..])
  }

  /** Replace every maximal run of '-' with one '-' (CollapseDoubleDash,
      CollapseKeepsClean): the result never holds "--"
      (CollapseNoDoubleDash), and the letters and digits stay as they were. */
  function CollapseDashes(s: string): (r: string)
    ensures |r| <= |s|
    ensures AlnumOf(r) == AlnumOf(s)
    decreases |s|
  {
    if |s| == 0 then ""
    else if s[0] == '-' && |s| >= 2 && s[1] == '-' then CollapseDashes(s[1..])
    else [s[0]] + CollapseDashes(s[1..])
  }

  /** slugify(keys...): only slug characters, no "--", and exactly the
      letters and digits of the keys, in order. */
  function Slugify(keys: seq<string>): (r: string)
    ensures AllSlug(r)
    ensures NoDoubleDash(r)
    ensures AlnumOf(r) == AlnumOf(Join(keys, "-"))
    ensures AlnumOf(r) == AlnumOf(Concat(keys))
  {
    var content := StripInvalid(Join(keys, "-"));
    NoSpaceInSlug(content);
    CollapseKeepsSlug(content);
    CollapseNoDoubleDash(content);
    assert AlnumOf("-") == "";
    CollapseDashes(DashSpaces(content))
  }

  /** cacheKey(prefix, keys...). */
  function CacheKey(prefix: string, keys: seq<string>): (r: string)
    ensures Slugify([prefix]) == "" ==> r == Slugify(keys) && ':' !in r
    ensures Slugify([prefix]) != "" ==>
              |r| == |Slugify([prefix])| + 1 + |Slugify(keys)| &&
              r[..|Slugify([prefix])|] == Slugify([prefix]) &&
              r[|Slugify([prefix])|] == ':' &&
              r[|Slugify([prefix])| + 1..] == Slugify(keys)
  {
    var p := Slugify([prefix]);
    var key := Slugify(keys);
    NoColonInSlug(key);
    if p != "" then p + ":" + key else key
  }

  /** randomString: "" for an empty alphabet, otherwise n characters,
      each drawn from `letters` (the choice is left open). */
  method RandomString(n: nat, letters: string) returns (s: string)
    ensures letters == "" ==> s == ""
    ensures letters != "" ==> |s| == n && forall i :: 0 <= i < |s| ==> s[i] in letters
  {
    if |letters| == 0 {
      return "";
    }
    var bytes := new char[n];
    for i := 0 to n
      invariant forall k :: 0 <= k < i ==> bytes[k] in letters
    {
      var j :| 0 <= j < |letters|;
      bytes[i] := letters[j];
    }
    s := bytes[..];
  }

  // ---------------------------------------------------------------------
  // Properties of slugify and cacheKey

  lemma {:induction false} StripInvalidKeepsSlug(s: string)
    requires AllSlug(s)
    ensures StripInvalid(s) == s
    decreases |s|
  {
    if |s| > 0 {
      StripInvalidKeepsSlug(s[1..]);
    }
  }

  /** Once invalid characters are gone there is no whitespace left, so
      the whitespace replacement never fires. */
  lemma {:induction false} NoSpaceInSlug(s: string)
    requires AllSlug(s)
    ensures DashSpaces(s) == s
    decreases |s|
  {
    if |s| > 0 {
      NoSpaceInSlug(s[1..]);
    }
  }

  lemma {:induction false} CollapseKeepsSlug(s: string)
    requires AllSlug(s)
    ensures AllSlug(CollapseDashes(s))
    decreases |s|
  {
    if |s| > 0 {
      CollapseKeepsSlug(s[1..]);
    }
  }

  lemma {:induction false} CollapseHead(s: string)
    requires |s| > 0
    ensures |CollapseDashes(s)| > 0 && CollapseDashes(s)[0] == s[0]
    decreases |s|
  {
    if s[0] == '-' && |s| >= 2 && s[1] == '-' {
      CollapseHead(s[1..]);
    }
  }

  lemma {:induction false} CollapseNoDoubleDash(s: string)
    ensures NoDoubleDash(CollapseDashes(s))
    decreases |s|
  {
    if |s| > 0 {
      CollapseNoDoubleDash(s[1..]);
      if !(s[0] == '-' && |s| >= 2 && s[1] == '-') && |s| >= 2 {
        CollapseHead(s[1..]);
      }
    }
  }

  lemma {:induction false} CollapseKeepsClean(s: string)
    requires NoDoubleDash(s)
    ensures CollapseDashes(s) == s
    decreases |s|
  {
    if |s| > 0 {
      CollapseKeepsClean(s[1..]);
    }
  }

  /** Filtering letters and digits distributes over concatenation. */
  lemma {:induction false} AlnumAppend(a: string, b: string)
    ensures AlnumOf(a + b) == AlnumOf(a) + AlnumOf(b)
    decreases |a|
  {
    if |a| > 0 {
      assert (a + b)[1..] == a[1..] + b;
      AlnumAppend(a[1..], b);
    } else {
      assert a + b == b;
    }
  }

  /** Deleting invalid characters distributes over concatenation; with the
      one-character case this determines StripInvalid completely. */
  lemma {:induction false} StripInvalidAppend(a: string, b: string)
    ensures StripInvalid(a + b) == StripInvalid(a) + StripInvalid(b)
    decreases |a|
  {
    if |a| > 0 {
      assert (a + b)[1..] == a[1..] + b;
      StripInvalidAppend(a[1..], b);
    } else {
      assert a + b == b;
    }
  }

  /** Concatenation is associative. */
  lemma Assoc(p: string, q: string, r: string)
    ensures p + (q + r) == p + q + r
  {
  }

  /** Join of two non-empty key lists is the two joins around `sep`. */
  lemma {:induction false} JoinAppend(a: seq<string>, b: seq<string>, sep: string)
    requires |a| > 0 && |b| > 0
    ensures Join(a + b, sep) == Join(a, sep) + sep + Join(b, sep)
    decreases |a|
  {
    assert (a + b)[0] == a[0];
    assert (a + b)[1..] == a[1..] + b;
    if |a| > 1 {
      JoinAppend(a[1..], b, sep);
      var head, mid, tail := a[0] + sep, Join(a[1..], sep), sep + Join(b, sep);
      Assoc(head, mid, tail);
      Assoc(head + mid, sep, Join(b, sep));
    } else {
      assert a[1..] + b == b;
    }
  }

  /** One step of the whitespace pass. */
  lemma DashSpacesCons(c: char, t: string)
    ensures IsSpace(c) && |t| > 0 && IsSpace(t[0]) ==> DashSpaces([c] + t) == DashSpaces(t)
    ensures IsSpace(c) && !(|t| > 0 && IsSpace(t[0])) ==> DashSpaces([c] + t) == "-" + DashSpaces(t)
    ensures !IsSpace(c) ==> DashSpaces([c] + t) == [c] + DashSpaces(t)
  {
    assert ([c] + t)[1..] == t;
  }

  /** The whitespace pass on one character followed by a string. */
  lemma DashSpacesSplitOne(c: char, b: string)
    requires |b| == 0 || !(IsSpace(c) && IsSpace(b[0]))
    ensures DashSpaces([c] + b) == DashSpaces([c]) + DashSpaces(b)
  {
    DashSpacesCons(c, b);
    DashSpacesCons(c, "");
    assert [c] + "" == [c];
  }

  /** The whitespace pass works piecewise wherever no whitespace run is
      cut in two. */
  lemma {:induction false} DashSpacesSplit(a: string, b: string)
    requires |a| == 0 || |b| == 0 || !(IsSpace(a[|a| - 1]) && IsSpace(b[0]))
    ensures DashSpaces(a + b) == DashSpaces(a) + DashSpaces(b)
    decreases |a|
  {
    if |a| == 0 {
      assert a + b == b;
    } else if |a| == 1 {
      assert a == [a[0]];
      DashSpacesSplitOne(a[0], b);
    } else {
      var c, rest := a[0], a[1..];
      assert a == [c] + rest;
      Assoc([c], rest, b);
      assert (rest + b)[0] == rest[0];
      DashSpacesCons(c, rest);
      DashSpacesCons(c, rest + b);
      DashSpacesSplit(rest, b);
      Assoc("-", DashSpaces(rest), DashSpaces(b));
      Assoc([c], DashSpaces(rest), DashSpaces(b));
    }
  }

  /** Two adjacent whitespace characters count as one. */
  lemma {:induction false} DashSpacesRun(a: string, x: char, y: char, b: string)
    requires IsSpace(x) && IsSpace(y)
    ensures DashSpaces(a + [x, y] + b) == DashSpaces(a + [x] + b)
    decreases |a|
  {
    if |a| == 0 {
      assert a + [x, y] + b == [x, y] + b;
      assert a + [x] + b == [x] + b;
      assert ([x, y] + b)[1..] == [y] + b;
      assert ([y] + b)[1..] == b && ([x] + b)[1..] == b;
    } else {
      assert (a + [x, y] + b)[1..] == a[1..] + [x, y] + b;
      assert (a + [x] + b)[1..] == a[1..] + [x] + b;
      DashSpacesRun(a[1..], x, y, b);
    }
  }

  /** A whitespace character not followed by whitespace becomes '-'. */
  lemma DashSpacesHead(x: char, b: string)
    requires IsSpace(x)
    requires |b| == 0 || !IsSpace(b[0])
    ensures DashSpaces([x] + b) == "-" + DashSpaces(b)
  {
    assert ([x] + b)[1..] == b;
  }

  /** A lone whitespace character becomes one '-'. */
  lemma DashSpacesSingle(a: string, x: char, b: string)
    requires IsSpace(x)
    requires |a| == 0 || !IsSpace(a[|a| - 1])
    requires |b| == 0 || !IsSpace(b[0])
    ensures DashSpaces(a + [x] + b) == DashSpaces(a) + "-" + DashSpaces(b)
  {
    var xb := [x] + b;
    Assoc(a, [x], b);
    DashSpacesSplit(a, xb);
    DashSpacesHead(x, b);
    Assoc(DashSpaces(a), "-", DashSpaces(b));
  }

  /** A string without whitespace passes the whitespace pass unchanged. */
  lemma {:induction false} NoSpaceUnchanged(s: string)
    requires forall i :: 0 <= i < |s| ==> !IsSpace(s[i])
    ensures DashSpaces(s) == s
    decreases |s|
  {
    if |s| > 0 {
      NoSpaceUnchanged(s[1..]);
    }
  }

  /** Collapsing works piecewise wherever no dash run is cut in two. */
  lemma {:induction false} CollapseSplit(a: string, b: string)
    requires |a| == 0 || |b| == 0 || !(a[|a| - 1] == '-' && b[0] == '-')
    ensures CollapseDashes(a + b) == CollapseDashes(a) + CollapseDashes(b)
    decreases |a|
  {
    if |a| == 0 {
      assert a + b == b;
    } else {
      assert (a + b)[1..] == a[1..] + b;
      if |a| > 1 {
        CollapseSplit(a[1..], b);
      } else {
        assert a[1..] == "";
      }
    }
  }

  /** Two adjacent dashes count as one. */
  lemma {:induction false} CollapseDoubleDash(a: string, b: string)
    ensures CollapseDashes(a + "--" + b) == CollapseDashes(a + "-" + b)
    decreases |a|
  {
    if |a| == 0 {
      assert a + "--" + b == "--" + b;
      assert a + "-" + b == "-" + b;
      assert ("--" + b)[1..] == "-" + b;
    } else {
      assert (a + "--" + b)[1..] == a[1..] + "--" + b;
      assert (a + "-" + b)[1..] == a[1..] + "-" + b;
      CollapseDoubleDash(a[1..], b);
    }
  }

  /** A character that does not start a dash run is kept as it is. */
  lemma CollapseCons(c: char, t: string)
    requires !(c == '-' && |t| > 0 && t[0] == '-')
    ensures CollapseDashes([c] + t) == [c] + CollapseDashes(t)
  {
    assert ([c] + t)[1..] == t;
  }

  /** Collapsing a prefix first changes nothing. */
  lemma {:induction false} CollapseLeft(x: string, y: string)
    ensures CollapseDashes(CollapseDashes(x) + y) == CollapseDashes(x + y)
    decreases |x|
  {
    if |x| == 0 {
      assert x + y == y;
    } else if x[0] == '-' && |x| >= 2 && x[1] == '-' {
      assert (x + y)[1..] == x[1..] + y;
      CollapseLeft(x[1..], y);
    } else if |x| == 1 {
      CollapseCons(x[0], "");
      assert CollapseDashes(x) == x;
    } else {
      var c, rest := x[0], x[1..];
      assert x == [c] + rest;
      CollapseHead(rest);
      CollapseCons(c, rest);
      Assoc([c], rest, y);
      CollapseCons(c, rest + y);
      Assoc([c], CollapseDashes(rest), y);
      CollapseCons(c, CollapseDashes(rest) + y);
      CollapseLeft(rest, y);
    }
  }

  /** The stripped content of a slug with one more key. */
  lemma StripJoinAppend(keys: seq<string>, k: string)
    requires |keys| > 0
    ensures StripInvalid(Join(keys + [k], "-")) ==
            StripInvalid(Join(keys, "-")) + ("-" + StripInvalid(k))
  {
    var head := Join(keys, "-");
    JoinSnoc(keys, k);
    StripInvalidAppend(head + "-", k);
    StripInvalidAppend(head, "-");
    StripDash();
    Assoc(StripInvalid(head), "-", StripInvalid(k));
  }

  lemma JoinSnoc(keys: seq<string>, k: string)
    requires |keys| > 0
    ensures Join(keys + [k], "-") == Join(keys, "-") + "-" + k
  {
    JoinAppend(keys, [k], "-");
    assert Join([k], "-") == k;
  }

  lemma StripDash()
    ensures StripInvalid("-") == "-"
  {
    var one: string := "-";
    assert |one| == 1 && IsSlugChar(one[0]);
  }

  /** Adding a key appends '-' and the key's valid characters, with the
      dash run at the seam collapsed. */
  lemma SlugifyAppend(keys: seq<string>, k: string)
    requires |keys| > 0
    ensures Slugify(keys + [k]) == CollapseDashes(Slugify(keys) + "-" + StripInvalid(k))
  {
    var stripped := StripInvalid(Join(keys, "-"));
    var tail := "-" + StripInvalid(k);
    StripJoinAppend(keys, k);
    NoSpaceInSlug(StripInvalid(Join(keys + [k], "-")));
    NoSpaceInSlug(stripped);
    assert Slugify(keys + [k]) == CollapseDashes(stripped + tail);
    assert Slugify(keys) == CollapseDashes(stripped);
    CollapseLeft(stripped, tail);
    assert Slugify(keys) + "-" + StripInvalid(k) == Slugify(keys) + tail;
  }

  /** Keys are separated by one '-'. */
  lemma SlugifyTwoKeys()
    ensures Slugify(["a", "b"]) == "a-b"
  {
  }

  /** However many dashes meet at a seam, one '-' remains. */
  lemma SlugifyDashSeam()
    ensures Slugify(["a-", "-b"]) == "a-b"
  {
    var joined := Join(["a-", "-b"], "-");
    assert joined == "a---b";
    StripInvalidKeepsSlug(joined);
    NoSpaceInSlug(joined);
    assert CollapseDashes("a---b") == "a-b";
  }

  /** slugify is idempotent. */
  lemma SlugifyIdempotent(keys: seq<string>)
    ensures Slugify([Slugify(keys)]) == Slugify(keys)
  {
    var s := Slugify(keys);
    assert Join([s], "-") == s;
    StripInvalidKeepsSlug(s);
    NoSpaceInSlug(s);
    CollapseKeepsClean(s);
  }

  /** Whitespace is deleted before it could become '-': "a b" gives "ab". */
  lemma WhitespaceDeleted()
    ensures Slugify(["a b"]) == "ab"
  {
  }

  lemma NoColonInSlug(s: string)
    requires AllSlug(s)
    ensures ':' !in s
  {
  }

  /** Cache keys with a non-empty prefix determine their parts: two equal
      keys come from the same prefix slug and the same key slug. */
  lemma CacheKeyInjective(p1: string, k1: seq<string>, p2: string, k2: seq<string>)
    requires Slugify([p1]) != "" && Slugify([p2]) != ""
    requires CacheKey(p1, k1) == CacheKey(p2, k2)
    ensures Slugify([p1]) == Slugify([p2]) && Slugify(k1) == Slugify(k2)
  {
  }
}
