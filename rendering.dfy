/**
 The README text index.js writes: a fixed header, then one block per boost in the
 catalogue's key order, joined with nothing between them. The text depends on
 the catalogue alone.
 */
module Rendering {
  import opened OrderedMap
  import opened Text
  import opened Registry

  const Header: string := "# Arc Boosts\n\n"

  /**
   The block for one boost: heading, version line, button and link reference. It opens
   with the `## key` heading and closes with the reference line that binds the key to the link.
   */
  function Block(key: string, boost: Boost): (r: string)
    ensures var head := "## " + key + "\n\n";
      |head| <= |r| && r[..|head|] == head
    ensures var reference := "[" + key + "]: " + boost.link + " 'I want this!'\n\n";
      |reference| <= |r| && r[|r| - |reference|..] == reference
  {
    var head := "## " + key + "\n\n";
    var middle := "Version: " + boost.version + "\n\n[<kbd> <br> I want this! <br> </kbd>][" + key + "]\n\n";
    var reference := "[" + key + "]: " + boost.link + " 'I want this!'\n\n";
    var r := head + middle + reference;
    assert r[..|head|] == head && r[|r| - |reference|..] == reference;
    r
  }

  function EntryBlock(entry: (string, Boost)): string
  {
    Block(entry.0, entry.1)
  }

  /** The README content `generateReadmeAndUpdateFile` writes for a catalogue. */
  function ReadmeContent(boostData: Entries<Boost>): (r: string)
    ensures |Header| <= |r| && r[..|Header|] == Header
    ensures boostData == [] ==> r == Header
  {
    Header + Join(EntryBlock, boostData)
  }

  /** Adding a boost at the end adds its block at the end of the text. */
  lemma ReadmeAppend(boostData: Entries<Boost>, key: string, boost: Boost)
    ensures ReadmeContent(boostData + [(key, boost)]) == ReadmeContent(boostData) + Block(key, boost)
  {
    JoinAppend(EntryBlock, boostData, [(key, boost)]);
    assert Join(EntryBlock, [(key, boost)]) == Block(key, boost);
  }

  /** The i-th boost's block follows the header and the blocks of the boosts before it. */
  lemma ReadmeBlockAt(boostData: Entries<Boost>, i: nat)
    requires i < |boostData|
    ensures var at := |ReadmeContent(boostData[..i])|;
      var b := Block(boostData[i].0, boostData[i].1);
      at + |b| <= |ReadmeContent(boostData)| && ReadmeContent(boostData)[at..at + |b|] == b
  {
    JoinPieceAt(EntryBlock, boostData, i);
  }
}
