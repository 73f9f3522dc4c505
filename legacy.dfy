/**
 The earlier version of the program, src/index.js: the catalogue is an object from key
 to link, `addBoost` assigns into the caller's object and returns it, and
 `generateReadme` builds the README text in a loop over the entries.
 */
module Legacy {
  import opened OrderedMap
  import opened Text
  import Rendering

  /** The heading line: `## `, the key, then a blank line. */
  function Heading(key: string): (r: string)
    ensures |r| == |key| + 5
    ensures r[..3] == "## " && r[3..3 + |key|] == key && r[|r| - 2..] == "\n\n"
  {
    "## " + key + "\n\n"
  }

  /** The button line: a `Get it from Arc!` button that refers to the key's link reference. */
  function Button(key: string): (r: string)
    ensures var caption := "[<kbd> <br> Get it from Arc! <br> </kbd>][";
      |r| == |caption| + |key| + 3
      && r[..|caption|] == caption && r[|caption|..|caption| + |key|] == key && r[|r| - 3..] == "]\n\n"
  {
    "[<kbd> <br> Get it from Arc! <br> </kbd>][" + key + "]\n\n"
  }

  /** The link reference line: binds the key to the link, with the title `Get it from Arc`. */
  function Reference(key: string, link: string): (r: string)
    ensures var title := " 'Get it from Arc'\n\n";
      |r| == |key| + |link| + 4 + |title|
      && r[0] == '[' && r[1..1 + |key|] == key && r[1 + |key|..3 + |key|] == "]:"
      && r[3 + |key|..4 + |key|] == " " && r[4 + |key|..4 + |key| + |link|] == link
      && r[|r| - |title|..] == title
  {
    "[" + key + "]: " + link + " 'Get it from Arc'\n\n"
  }

  /** The three lines `generateReadme` appends for one entry: heading first, link reference last. */
  function LegacyBlock(key: string, link: string): (r: string)
    ensures |Heading(key)| + |Reference(key, link)| <= |r|
    ensures r[..|Heading(key)|] == Heading(key)
    ensures r[|r| - |Reference(key, link)|..] == Reference(key, link)
  {
    Heading(key) + Button(key) + Reference(key, link)
  }

  function EntryBlock(entry: (string, string)): string
  {
    LegacyBlock(entry.0, entry.1)
  }

  /** The text `generateReadme` returns: the header, then each entry's block in key order. */
  function LegacyReadme(boostData: Entries<string>): (r: string)
    ensures boostData == [] ==> r == Rendering.Header
  {
    Rendering.Header + Join(EntryBlock, boostData)
  }

  /** Adding an entry at the end adds its block at the end of the text. */
  lemma LegacyReadmeAppend(boostData: Entries<string>, key: string, link: string)
    ensures LegacyReadme(boostData + [(key, link)]) == LegacyReadme(boostData) + LegacyBlock(key, link)
  {
    JoinAppend(EntryBlock, boostData, [(key, link)]);
    assert Join(EntryBlock, [(key, link)]) == LegacyBlock(key, link);
  }

  /** The catalogue object, updated in place. */
  class BoostData {
    var entries: Entries<string>

    ghost predicate Valid()
      reads this
    {
      DistinctKeys(entries)
    }

    constructor (entries: Entries<string>)
      requires DistinctKeys(entries)
      ensures Valid() && this.entries == entries
    {
      this.entries := entries;
    }

    /**
     `addBoost`: assigns the link to the key on the object itself, then returns that same
     object. Any link is stored as given. An existing key keeps its place and the number
     of keys; a new key is appended.
     */
    method AddBoost(key: string, link: string) returns (r: BoostData)
      requires Valid()
      modifies this
      ensures Valid() && r == this
      ensures ToMap(entries) == old(ToMap(entries))[key := link]
      ensures Keys(entries) == if key in old(Keys(entries)) then old(Keys(entries)) else old(Keys(entries)) + [key]
      ensures |ToMap(entries)| == if key in old(ToMap(entries)) then old(|ToMap(entries)|) else old(|ToMap(entries)|) + 1
    {
      PutCount(entries, key, link);
      PutDistinct(entries, key, link);
      entries := Put(entries, key, link);
      r := this;
    }
  }

  /** `generateReadme(boostData)`: start from the header and append three lines per entry. */
  method GenerateReadme(boostData: BoostData) returns (readmeContent: string)
    ensures readmeContent == LegacyReadme(boostData.entries)
  {
    var entries := boostData.entries;
    readmeContent := Rendering.Header;
    for i := 0 to |entries|
      invariant readmeContent == LegacyReadme(entries[..i])
    {
      var (key, link) := entries[i];
      readmeContent := readmeContent + Heading(key);
      readmeContent := readmeContent + Button(key);
      readmeContent := readmeContent + Reference(key, link);
      LegacyReadmeAppend(entries[..i], key, link);
      assert entries[..i + 1] == entries[..i] + [(key, link)];
    }
    assert entries[..|entries|] == entries;
  }
}
