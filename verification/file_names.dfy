/** `extractFileName`: the display name the review modal shows for an uploaded file's URL.
    URL decoding is an input (`decode`), a partial function: `None` is the exception
    `decodeURIComponent` throws on a malformed escape. */
module FileNames {
  import opened Basics
  import opened Text

  const MaxShownLength: nat := 40
  const KeptPrefixLength: nat := 37
  const Ellipsis: string := "..."
  const NoUrlName: string := "File"
  const UndecodableName: string := "Attached File"

  /** The last path segment of a URL, its query string cut off. */
  function RawFileName(url: string): (r: string)
    ensures '?' !in r
  {
    BeforeFirst(AfterLast(url, '/'), '?')
  }

  /** The extension the shortened name keeps: the text after the last dot, or nothing when
      the name holds no dot. */
  function Extension(name: string): (e: string)
    ensures '.' !in e
    ensures '.' !in name ==> e == []
  {
    if '.' in name then AfterLast(name, '.') else []
  }

  /** Names over 40 characters become their first 37, an ellipsis, and the extension. */
  function Shorten(name: string): (r: string)
    ensures |name| <= MaxShownLength ==> r == name
    ensures |name| > MaxShownLength ==>
              |r| == KeptPrefixLength + |Ellipsis| + (if Extension(name) == [] then 0 else 1 + |Extension(name)|)
              && r[..KeptPrefixLength] == name[..KeptPrefixLength]
    ensures |name| > MaxShownLength ==>
              r[KeptPrefixLength..KeptPrefixLength + |Ellipsis|] == Ellipsis
              && r[KeptPrefixLength + |Ellipsis|..] == (if Extension(name) == [] then [] else "." + Extension(name))
  {
    if |name| > MaxShownLength then
      var ext := Extension(name);
      name[..KeptPrefixLength] + Ellipsis + (if ext != [] then "." + ext else "")
    else name
  }

  function ExtractFileName(url: Option<string>, decode: string -> Option<string>): (r: string)
    ensures !TruthyText(url) ==> r == NoUrlName
    ensures TruthyText(url) && decode(RawFileName(url.value)).None? ==> r == UndecodableName
    ensures TruthyText(url) && decode(RawFileName(url.value)).Some? ==>
              r == Shorten(decode(RawFileName(url.value)).value)
  {
    if !TruthyText(url) then NoUrlName
    else
      match decode(RawFileName(url.value))
      case None => UndecodableName
      case Some(name) => Shorten(name)
  }

  /** The name is recovered from a URL built as directory, name and query string. */
  lemma RawFileNameOfBuiltUrl(dir: string, name: string, query: string)
    requires '/' !in name && '/' !in query && '?' !in name
    ensures RawFileName(dir + "/" + name + "?" + query) == name
    ensures RawFileName(dir + "/" + name) == name
  {
    assert dir + "/" + name + "?" + query == dir + ['/'] + (name + "?" + query);
    AfterLastOfJoin(dir, '/', name + "?" + query);
    BeforeFirstOfJoin(name, '?', query);
    assert dir + "/" + name == dir + ['/'] + name;
    AfterLastOfJoin(dir, '/', name);
    BeforeFirstNoSeparator(name, '?');
  }

  lemma {:induction false} BeforeFirstNoSeparator(s: string, c: char)
    requires c !in s
    ensures BeforeFirst(s, c) == s
  {
    if |s| > 0 {
      BeforeFirstNoSeparator(s[1..], c);
      assert s == [s[0]] + s[1..];
    }
  }

  /** Shortening keeps the extension of every name that has one. */
  lemma ShortenKeepsExtension(name: string)
    requires '.' in name
    ensures AfterLast(Shorten(name), '.') == AfterLast(name, '.')
  {
    if |name| > MaxShownLength {
      var ext := Extension(name);
      var front := name[..KeptPrefixLength] + Ellipsis;
      if ext != [] {
        assert Shorten(name) == front + ['.'] + ext;
        AfterLastOfJoin(front, '.', ext);
      } else {
        assert Shorten(name) == name[..KeptPrefixLength] + ".." + ['.'] + [];
        AfterLastOfJoin(name[..KeptPrefixLength] + "..", '.', []);
      }
    }
  }

  /** A file uploaded under a short name that decodes to itself is shown under that name. */
  lemma ShortNameShownAsUploaded(dir: string, name: string, query: string, decode: string -> Option<string>)
    requires name != [] && |name| <= MaxShownLength
    requires '/' !in name && '/' !in query && '?' !in name
    requires decode(name) == Some(name)
    ensures ExtractFileName(Some(dir + "/" + name + "?" + query), decode) == name
  {
    RawFileNameOfBuiltUrl(dir, name, query);
  }

  /** A long name without a dot ends in the ellipsis, with nothing after it. */
  lemma LongNameWithoutDot(name: string)
    requires |name| > MaxShownLength && '.' !in name
    ensures Shorten(name) == name[..KeptPrefixLength] + Ellipsis
  {
  }
}
