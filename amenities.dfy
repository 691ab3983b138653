/** The `amenities_list` property of a listing: the comma-separated
    `amenities` text cut at each comma, each piece stripped of surrounding
    whitespace. */
module AmenityParsing {

  const Separator: char := ','

  /** The characters Python's `str.strip()` removes by default. */
  predicate IsSpace(c: char) {
    || ('\t' <= c <= '\r')
    || ('\U{1C}' <= c <= ' ')
    || c == '\U{85}' || c == '\U{A0}' || c == '\U{1680}'
    || ('\U{2000}' <= c <= '\U{200A}')
    || c == '\U{2028}' || c == '\U{2029}' || c == '\U{202F}' || c == '\U{205F}' || c == '\U{3000}'
  }

  /** Number of occurrences of `c` in `s`. */
  function Count(s: string, c: char): nat {
    if s == [] then 0 else (if s[0] == c then 1 else 0) + Count(s[1..], c)
  }

  /** `s.split(',')`: the comma-free runs between commas, empty runs included,
      so that the empty text gives one empty piece. */
  function Split(s: string): (pieces: seq<string>)
    ensures |pieces| == Count(s, Separator) + 1
    ensures forall i :: 0 <= i < |pieces| ==> Separator !in pieces[i]
  {
    if s == [] then [""]
    else
      var rest := Split(s[1..]);
      if s[0] == Separator then [""] + rest
      else [[s[0]] + rest[0]] + rest[1..]
  }

  /** `','.join(pieces)`. */
  function Join(pieces: seq<string>): string
    requires |pieces| >= 1
  {
    if |pieces| == 1 then pieces[0] else pieces[0] + [Separator] + Join(pieces[1..])
  }

  /** Splitting loses nothing and keeps the order: the pieces, joined back, are the text. */
  lemma {:induction false} JoinSplit(s: string)
    ensures Join(Split(s)) == s
  {
    if s != [] {
      var rest := Split(s[1..]);
      JoinSplit(s[1..]);
      if s[0] == Separator {
        assert Split(s) == [""] + rest;
        assert (([""] + rest)[1..]) == rest;
      } else if |rest| == 1 {
        assert Split(s) == [[s[0]] + rest[0]];
      } else {
        var pieces := [[s[0]] + rest[0]] + rest[1..];
        assert Split(s) == pieces;
        assert pieces[1..] == rest[1..];
        assert Join(rest) == rest[0] + [Separator] + Join(rest[1..]);
      }
    }
  }

  /** A comma-free text splits into itself alone. */
  lemma {:induction false} SplitCommaFree(p: string)
    requires Separator !in p
    ensures Split(p) == [p]
  {
    if p != [] {
      assert Separator !in p[1..] by {
        forall k | 0 <= k < |p[1..]| ensures p[1..][k] != Separator { assert p[1..][k] == p[k + 1]; }
      }
      SplitCommaFree(p[1..]);
      assert [p[0]] + p[1..] == p;
    }
  }

  /** Splitting a comma-free piece followed by a comma yields that piece first. */
  lemma {:induction false} SplitAfterPiece(p: string, t: string)
    requires Separator !in p
    ensures Split(p + [Separator] + t) == [p] + Split(t)
  {
    var s := p + [Separator] + t;
    if p == [] {
      assert s == [Separator] + t;
      assert s[1..] == t;
    } else {
      assert Separator !in p[1..] by {
        forall k | 0 <= k < |p[1..]| ensures p[1..][k] != Separator { assert p[1..][k] == p[k + 1]; }
      }
      SplitAfterPiece(p[1..], t);
      assert s[1..] == p[1..] + [Separator] + t;
      var rest := Split(s[1..]);
      assert rest == [p[1..]] + Split(t);
      assert [p[0]] + p[1..] == p;
      assert Split(s) == [[p[0]] + rest[0]] + rest[1..];
    }
  }

  /** Conversely, comma-free pieces joined with commas split back into the same pieces. */
  lemma {:induction false} SplitJoin(pieces: seq<string>)
    requires |pieces| >= 1
    requires forall i :: 0 <= i < |pieces| ==> Separator !in pieces[i]
    ensures Split(Join(pieces)) == pieces
  {
    if |pieces| == 1 {
      SplitCommaFree(pieces[0]);
    } else {
      SplitJoin(pieces[1..]);
      SplitAfterPiece(pieces[0], Join(pieces[1..]));
      assert [pieces[0]] + pieces[1..] == pieces;
    }
  }

  /** Index of the first non-whitespace character of `s` at or after `i`
      (or `|s|`): where `strip` starts cutting no more. */
  function Lead(s: string, i: nat): (k: nat)
    requires i <= |s|
    ensures i <= k <= |s|
    ensures forall x :: i <= x < k ==> IsSpace(s[x])
    ensures k < |s| ==> !IsSpace(s[k])
    decreases |s| - i
  {
    if i < |s| && IsSpace(s[i]) then Lead(s, i + 1) else i
  }

  /** End of `s[lo..j]` once its trailing whitespace is cut off. */
  function Trail(s: string, lo: nat, j: nat): (k: nat)
    requires lo <= j <= |s|
    ensures lo <= k <= j
    ensures forall x :: k <= x < j ==> IsSpace(s[x])
    ensures k > lo ==> !IsSpace(s[k - 1])
  {
    if j > lo && IsSpace(s[j - 1]) then Trail(s, lo, j - 1) else j
  }

  /** Neither the first nor the last character is whitespace. */
  predicate NoEdgeSpace(s: string) {
    s == [] || (!IsSpace(s[0]) && !IsSpace(s[|s| - 1]))
  }

  /** `r` is `s` with a whitespace-only prefix and suffix cut off, and
      nothing more to cut: the meaning of `s.strip()`. */
  ghost predicate IsStripOf(r: string, s: string) {
    && NoEdgeSpace(r)
    && exists i, j :: 0 <= i <= j <= |s| && r == s[i..j]
                      && (forall k :: 0 <= k < i ==> IsSpace(s[k]))
                      && (forall k :: j <= k < |s| ==> IsSpace(s[k]))
  }

  /** `s.strip()`. */
  function Strip(s: string): (r: string)
    ensures IsStripOf(r, s)
    ensures forall c :: c in r ==> c in s
  {
    var i := Lead(s, 0);
    var j := Trail(s, i, |s|);
    assert i < j ==> s[i..j][0] == s[i] && s[i..j][j - i - 1] == s[j - 1];
    s[i..j]
  }

  /** Two ways of cutting whitespace margins off `s` that both leave a clean
      middle leave the same middle. */
  lemma SameCut(s: string, i: nat, j: nat, i': nat, j': nat)
    requires i <= j <= |s| && i' <= j' <= |s|
    requires forall k :: 0 <= k < i ==> IsSpace(s[k])
    requires forall k :: j <= k < |s| ==> IsSpace(s[k])
    requires forall k :: 0 <= k < i' ==> IsSpace(s[k])
    requires forall k :: j' <= k < |s| ==> IsSpace(s[k])
    requires NoEdgeSpace(s[i..j]) && NoEdgeSpace(s[i'..j'])
    ensures s[i..j] == s[i'..j']
  {
    if i < j {
      assert s[i..j][0] == s[i] && !IsSpace(s[i]);
      assert s[i..j][j - i - 1] == s[j - 1] && !IsSpace(s[j - 1]);
      assert i' <= i && j <= j';
    }
    if i' < j' {
      assert s[i'..j'][0] == s[i'] && !IsSpace(s[i']);
      assert s[i'..j'][j' - i' - 1] == s[j' - 1] && !IsSpace(s[j' - 1]);
      assert i <= i' && j' <= j;
    }
  }

  /** `IsStripOf` pins down one result, so `Strip` is the only way to meet it. */
  lemma StripUnique(s: string, r: string)
    requires IsStripOf(r, s)
    ensures r == Strip(s)
  {
    var i, j :| 0 <= i <= j <= |s| && r == s[i..j]
                && (forall k :: 0 <= k < i ==> IsSpace(s[k]))
                && (forall k :: j <= k < |s| ==> IsSpace(s[k]));
    var i' := Lead(s, 0);
    var j' := Trail(s, i', |s|);
    assert Strip(s) == s[i'..j'];
    SameCut(s, i, j, i', j');
  }

  /** Stripping a piece that is already clean leaves it as it is; in particular
      `Strip` is idempotent. */
  lemma StripClean(s: string)
    requires NoEdgeSpace(s)
    ensures Strip(s) == s
  {
    assert s == s[0..|s|];
    assert IsStripOf(s, s);
    StripUnique(s, s);
  }

  /** `amenities_list`: no entries for an empty text, otherwise one entry per
      comma-separated piece, in order, each stripped. */
  function AmenitiesList(amenities: string): (r: seq<string>)
    ensures amenities == "" ==> r == []
    ensures amenities != "" ==> |r| == Count(amenities, Separator) + 1
    ensures amenities != "" ==> forall i :: 0 <= i < |r| ==> IsStripOf(r[i], Split(amenities)[i])
    ensures forall i :: 0 <= i < |r| ==> NoEdgeSpace(r[i]) && Separator !in r[i]
  {
    if amenities == "" then []
    else
      var pieces := Split(amenities);
      seq(|pieces|, i requires 0 <= i < |pieces| => Strip(pieces[i]))
  }

  /** Listing the amenities again from the entries joined with commas gives the
      same entries: the entries are already clean and comma-free. */
  lemma ListAgain(amenities: string)
    requires amenities != ""
    ensures var r := AmenitiesList(amenities);
            |r| >= 1 && Join(r) != "" ==> AmenitiesList(Join(r)) == r
  {
    var r := AmenitiesList(amenities);
    if Join(r) != "" {
      SplitJoin(r);
      var again := AmenitiesList(Join(r));
      forall i | 0 <= i < |r| ensures again[i] == r[i] { StripClean(r[i]); }
    }
  }
}
