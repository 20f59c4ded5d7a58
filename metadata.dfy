/** The header metadata parser (`Song.parse_metadata`): `#KEY:VALUE;` lines become a
    dictionary with lower-cased keys; malformed lines are skipped, never fatal. */
module Metadata {
  import opened Results
  import opened Text

  /** What one line contributes: only lines starting with `#` count; the stripped line
      loses its `#` and `;` ends and is cut at its first `:`; a line without `:` or with
      a blank key contributes nothing. The key is stripped and lower-cased, the value
      stripped. */
  function MetaEntry(line: string): (r: Option<(string, string)>)
    ensures r.Some? ==> StartsWith(line, "#")
    ensures ':' !in MetaBody(line) ==> r.None?
    ensures r.Some? ==> GoodKey(r.value.0) && Trimmed(r.value.1, IsSpace)
  {
    if !StartsWith(line, "#") then None
    else
      var t := MetaBody(line);
      var colon := IndexOf(t, ':');
      if colon == |t| then None
      else
        var key := Strip(t[..colon]);
        if key == [] then None
        else
          NoColonInStrip(t[..colon]);
          LowerFacts(key);
          TrimIsTrimmed(t[colon + 1..], IsSpace);
          TrimIsTrimmed(t[..colon], IsSpace);
          Some((Lower(key), Strip(t[colon + 1..])))
  }

  /** The stripped line without its `#` and `;` ends. */
  function MetaBody(line: string): string {
    Trim(Strip(line), IsHashOrSemicolon)
  }

  /** The shape of every key in the dictionary. */
  predicate GoodKey(k: string) {
    k != [] && HasNoUpper(k) && Trimmed(k, IsSpace) && ':' !in k
  }

  /** `line` sets key `k`. */
  predicate DefinesKey(line: string, k: string) {
    MetaEntry(line).Some? && MetaEntry(line).value.0 == k
  }

  /** The dictionary after the lines have been read in order; a later line overwrites
      an earlier one with the same key. */
  function MetadataOf(lines: seq<string>): (m: map<string, string>)
    ensures forall k | k in m :: GoodKey(k) && Trimmed(m[k], IsSpace)
    decreases |lines|
  {
    if lines == [] then map[]
    else
      var m := MetadataOf(lines[..|lines| - 1]);
      match MetaEntry(lines[|lines| - 1])
      case None => m
      case Some((k, v)) => m[k := v]
  }

  /** The loop of `parse_metadata`, filling the dictionary line by line. */
  method ParseMetadata(lines: seq<string>) returns (metadata: map<string, string>)
    ensures metadata == MetadataOf(lines)
  {
    metadata := map[];
    for n := 0 to |lines|
      invariant metadata == MetadataOf(lines[..n])
    {
      var line := lines[n];
      assert lines[..n + 1][..n] == lines[..n];
      if StartsWith(line, "#") {
        var t := Trim(Strip(line), IsHashOrSemicolon);
        var colon := IndexOf(t, ':');
        if colon < |t| {
          var key, value := t[..colon], t[colon + 1..];
          if Strip(key) != [] {
            metadata := metadata[Lower(Strip(key)) := Strip(value)];
          }
        }
      }
    }
    assert lines[..|lines|] == lines;
  }

  /** The metadata line that states key `k` with value `v`. */
  function MetaLine(k: string, v: string): string {
    "#" + k + ":" + v + ";"
  }

  // ---------------------------------------------------------------------------
  // Lemmas

  lemma NoColonInStrip(s: string)
    requires ':' !in s
    ensures ':' !in Strip(s)
  {
    var a := TrimStart(s, IsSpace);
    TrimStartSpec(s, IsSpace);
    TrimEndSpec(a, IsSpace);
    assert forall i | 0 <= i < |a| :: a[i] == s[|s| - |a| + i];
    var b := TrimEnd(a, IsSpace);
    assert forall i | 0 <= i < |b| :: b[i] == a[i];
  }

  /** The sequence of what each line contributes. */
  function Entries(lines: seq<string>): (es: seq<Option<(string, string)>>)
    ensures |es| == |lines|
  {
    seq(|lines|, i requires 0 <= i < |lines| => MetaEntry(lines[i]))
  }

  predicate EntryHasKey(e: Option<(string, string)>, k: string) {
    e.Some? && e.value.0 == k
  }

  /** The dictionary built from a sequence of contributions, in order. */
  function Apply(es: seq<Option<(string, string)>>): map<string, string>
    decreases |es|
  {
    if es == [] then map[]
    else
      var m := Apply(es[..|es| - 1]);
      match es[|es| - 1]
      case None => m
      case Some((k, v)) => m[k := v]
  }

  lemma {:induction false} MetadataIsApply(lines: seq<string>)
    ensures MetadataOf(lines) == Apply(Entries(lines))
    decreases |lines|
  {
    if lines != [] {
      var init := lines[..|lines| - 1];
      assert Entries(lines)[..|lines| - 1] == Entries(init);
      MetadataIsApply(init);
    }
  }

  lemma {:induction false} ApplyLastWins(es: seq<Option<(string, string)>>, i: nat, k: string, v: string)
    requires i < |es| && es[i] == Some((k, v))
    requires forall j | i < j < |es| :: !EntryHasKey(es[j], k)
    ensures k in Apply(es) && Apply(es)[k] == v
    decreases |es|
  {
    var init := es[..|es| - 1];
    if i < |es| - 1 {
      assert !EntryHasKey(es[|es| - 1], k);
      assert forall j | i < j < |init| :: init[j] == es[j];
      ApplyLastWins(init, i, k, v);
    }
  }

  lemma {:induction false} ApplyKeysFromEntries(es: seq<Option<(string, string)>>, k: string)
    requires k in Apply(es)
    ensures exists i | 0 <= i < |es| ::
              es[i] == Some((k, Apply(es)[k])) && forall j | i < j < |es| :: !EntryHasKey(es[j], k)
    decreases |es|
  {
    var init := es[..|es| - 1];
    var last := |es| - 1;
    if !EntryHasKey(es[last], k) {
      assert Apply(es)[k] == Apply(init)[k];
      ApplyKeysFromEntries(init, k);
      var i :| 0 <= i < |init| && init[i] == Some((k, Apply(init)[k]))
               && forall j | i < j < |init| :: !EntryHasKey(init[j], k);
      assert es[i] == init[i];
      assert forall j | i < j < |es| :: !EntryHasKey(es[j], k) by {
        forall j | i < j < |es| ensures !EntryHasKey(es[j], k) {
          if j < last { assert es[j] == init[j]; }
        }
      }
    }
  }

  /** A later line defining `k` wins: the value of the last line that defines `k` is
      the value of `k` in the dictionary. */
  lemma LastDefinitionWins(lines: seq<string>, i: nat, k: string, v: string)
    requires i < |lines|
    requires MetaEntry(lines[i]) == Some((k, v))
    requires forall j | i < j < |lines| :: !DefinesKey(lines[j], k)
    ensures k in MetadataOf(lines) && MetadataOf(lines)[k] == v
  {
    var es := Entries(lines);
    assert forall j | i < j < |es| :: !EntryHasKey(es[j], k) by {
      forall j | i < j < |es| ensures !EntryHasKey(es[j], k) {
        assert !DefinesKey(lines[j], k);
      }
    }
    ApplyLastWins(es, i, k, v);
    MetadataIsApply(lines);
  }

  /** Every key in the dictionary comes from a line, and its value from the last line
      that defines it. */
  lemma KeysComeFromLines(lines: seq<string>, k: string)
    requires k in MetadataOf(lines)
    ensures exists i | 0 <= i < |lines| ::
              && MetaEntry(lines[i]) == Some((k, MetadataOf(lines)[k]))
              && forall j | i < j < |lines| :: !DefinesKey(lines[j], k)
  {
    var es := Entries(lines);
    MetadataIsApply(lines);
    ApplyKeysFromEntries(es, k);
    var i :| 0 <= i < |es| && es[i] == Some((k, Apply(es)[k]))
             && forall j | i < j < |es| :: !EntryHasKey(es[j], k);
    assert MetaEntry(lines[i]) == Some((k, MetadataOf(lines)[k]));
    assert forall j | i < j < |lines| :: !DefinesKey(lines[j], k) by {
      forall j | i < j < |lines| ensures !DefinesKey(lines[j], k) {
        assert !EntryHasKey(es[j], k);
      }
    }
  }

  /** A line is cut at its first `:`: for the part before it, stripped, as the key and
      the part after it, stripped, as the value; a key that strips to nothing makes the
      line contribute nothing. */
  lemma MetaEntrySplit(line: string, key: string, value: string)
    requires StartsWith(line, "#")
    requires MetaBody(line) == key + ":" + value && ':' !in key
    ensures Strip(key) == [] ==> MetaEntry(line) == None
    ensures Strip(key) != [] ==> MetaEntry(line) == Some((Lower(Strip(key)), Strip(value)))
  {
    var t := MetaBody(line);
    assert IndexOf(t, ':') == |key| by {
      assert t[|key|] == ':';
      assert forall j | 0 <= j < |key| :: t[j] == key[j] && t[j] != ':';
    }
    assert t[..|key|] == key;
    assert t[|key| + 1..] == value;
  }

  /** A key that `parse_metadata` can read back: it is not blank, has no `:`, and its
      ends are kept by both strips. Its letters may be of either case. */
  predicate WritableKey(k: string) {
    k != [] && Trimmed(k, IsSpace) && ':' !in k && !IsHashOrSemicolon(k[0])
  }

  /** A value that `parse_metadata` can read back exactly. */
  predicate WritableValue(v: string) {
    Trimmed(v, IsSpace) && (v == [] || !IsHashOrSemicolon(v[|v| - 1]))
  }

  /** Writing `#key:value;` and parsing it gives the lower-cased key and the value back. */
  lemma MetaLineRoundTrip(k: string, v: string)
    requires WritableKey(k) && WritableValue(v)
    ensures MetaEntry(MetaLine(k, v)) == Some((Lower(k), v))
  {
    var line := MetaLine(k, v);
    var body := k + ":" + v;
    assert line == "#" + body + ";";
    assert StartsWith(line, "#");
    TrimmedIsFixed(line, IsSpace);
    assert Trimmed(body, IsHashOrSemicolon) by {
      assert body[0] == k[0];
      if v == [] { assert body[|body| - 1] == ':'; } else { assert body[|body| - 1] == v[|v| - 1]; }
    }
    TrimPadded("#", body, ";", IsHashOrSemicolon);
    TrimmedIsFixed(k, IsSpace);
    TrimmedIsFixed(v, IsSpace);
    MetaEntrySplit(line, k, v);
  }

  /** The usual upper-case form: `#TITLE:My Song;` sets `title` to `My Song`. */
  lemma TitleLine()
    ensures MetaEntry("#TITLE:My Song;") == Some(("title", "My Song"))
  {
    assert "#TITLE:My Song;" == MetaLine("TITLE", "My Song");
    MetaLineRoundTrip("TITLE", "My Song");
    assert Lower("TITLE") == "title";
  }
}
