/**
 The two ways index.js changes the catalogue: the one-shot `-a key link version`
 command and the interactive session. Both end in `saveChanges`, which writes the
 folded catalogue to arc-boosts.json and its rendering to README.md; the two files
 are modelled as the value last written to them.
 */
module Cli {
  import opened Wrappers
  import opened OrderedMap
  import opened Text
  import opened ArcLink
  import opened Versioning
  import opened Registry
  import opened Rendering

  /** What `saveChanges` writes: the catalogue (arc-boosts.json) and its README. */
  datatype Snapshot = Snapshot(json: Entries<Boost>, readme: string)

  /**
   `saveChanges(boostData, newBoosts)`: fold the entries over the catalogue, then write both
   files. The saved keys are the loaded keys, in their places, followed by the new keys of the
   entries; the README is the rendering of exactly what is saved.
   */
  function SaveChanges(boostData: Entries<Boost>, newBoosts: seq<Addition>): (r: Snapshot)
    ensures ToMap(r.json).Keys == ToMap(boostData).Keys + set j | 0 <= j < |newBoosts| :: newBoosts[j].key
    ensures |boostData| <= |r.json| && Keys(r.json)[..|boostData|] == Keys(boostData)
    ensures r.readme == ReadmeContent(r.json)
  {
    var updated := ApplyBatch(boostData, newBoosts);
    ApplyBatchKeys(boostData, newBoosts);
    Snapshot(updated, ReadmeContent(updated))
  }

  /** The result of `init` for the command-line arguments after the script name. */
  datatype Outcome = Interactive | Saved(snapshot: Snapshot) | InvalidLink | InvalidCommand

  /**
   `init`: no arguments start the interactive session; `-a key link version` saves that one
   boost when the link is accepted; anything else saves nothing.
   */
  function Init(boostData: Entries<Boost>, args: seq<string>): (o: Outcome)
    ensures o == Interactive <==> |args| == 0
    ensures o.Saved? <==> |args| == 4 && args[0] == "-a" && IsValidArcLink(args[2])
    ensures o == InvalidLink <==> |args| == 4 && args[0] == "-a" && !IsValidArcLink(args[2])
    ensures o.Saved? ==>
      && ToMap(o.snapshot.json) == ToMap(boostData)[args[1] := Boost(args[2], args[3])]
      && Keys(o.snapshot.json) == (if args[1] in Keys(boostData) then Keys(boostData) else Keys(boostData) + [args[1]])
      && o.snapshot.readme == ReadmeContent(o.snapshot.json)
  {
    if |args| == 0 then Interactive
    else if args[0] == "-a" && |args| == 4 then
      if !IsValidArcLink(args[2]) then InvalidLink
      else
        var newBoost := [Addition(args[1], args[2], args[3])];
        assert newBoost[..0] == [];
        assert ApplyBatch(boostData, newBoost) == AddBoost(args[1], args[2], args[3], boostData);
        Saved(SaveChanges(boostData, newBoost))
    else InvalidCommand
  }

  /** The test that ends the session at the key and link prompts: the trimmed input is empty or is "exit". */
  function IsExit(input: string): (b: bool)
    ensures b <==> AllWhitespace(input) || Trim(input) == "exit"
  {
    var t := Trim(input);
    t == [] || t == "exit"
  }

  datatype VersionError =
    | MissingEntry      // `existingBoost` is undefined: reading its version throws a TypeError
    | MalformedVersion  // the stored version is not three numbers

  /**
   The version stored for an interactive entry: the trimmed input when it is not empty, else
   the increment of the key's version as loaded at start-up. The increment is computed first,
   so a key that was not loaded fails even when a version is typed.
   */
  function ChooseVersion(boostData: Entries<Boost>, key: string, versionInput: string): (r: Result<string, VersionError>)
    ensures key !in ToMap(boostData) ==> r == Err(MissingEntry)
    ensures key in ToMap(boostData) && !AllWhitespace(versionInput) ==> r == Ok(Trim(versionInput))
    ensures key in ToMap(boostData) && AllWhitespace(versionInput) ==>
      match ParseVersion(ToMap(boostData)[key].version)
      case Some(v) => r.Ok? && ParseVersion(r.value) == Some(Version(v.major, v.minor, v.patch + 1))
      case None => r == Err(MalformedVersion)
  {
    if key !in ToMap(boostData) then Err(MissingEntry)
    else
      var newVersion := IncrementVersion(ToMap(boostData)[key].version);
      var typed := Trim(versionInput);
      if typed != [] then Ok(typed)
      else if newVersion.Some? then Ok(newVersion.value)
      else Err(MalformedVersion)
  }

  /** Every loaded version is three numbers, the case the increment is modelled for. */
  ghost predicate VersionsParse(boostData: Entries<Boost>)
  {
    forall k :: k in ToMap(boostData) ==> ParseVersion(ToMap(boostData)[k].version).Some?
  }

  /**
   A key entered twice with a blank version gets the same automatic version both times,
   one patch above the version loaded at start-up, not two.
   */
  lemma AutoVersionNotCompounded(boostData: Entries<Boost>, earlier: seq<Addition>, key: string,
                                 link1: string, link2: string, v: Version)
    requires key in ToMap(boostData) && ParseVersion(ToMap(boostData)[key].version) == Some(v)
    ensures ChooseVersion(boostData, key, "").Ok?
    ensures var auto := ChooseVersion(boostData, key, "").value;
      var saved := ToMap(ApplyBatch(boostData, earlier + [Addition(key, link1, auto), Addition(key, link2, auto)]));
      key in saved && saved[key] == Boost(link2, auto)
      && ParseVersion(saved[key].version) == Some(Version(v.major, v.minor, v.patch + 1))
  {
    assert AllWhitespace("");
    var auto := ChooseVersion(boostData, key, "").value;
    var batch := earlier + [Addition(key, link1, auto), Addition(key, link2, auto)];
    assert batch[|batch| - 1] == Addition(key, link2, auto);
    LastEntryWins(boostData, batch, |batch| - 1);
  }

  /** Every accepted entry passed the link check and names a key that was loaded. */
  ghost predicate AcceptedEntries(boostData: Entries<Boost>, newBoosts: seq<Addition>)
  {
    newBoosts == [] ||
      var last := newBoosts[|newBoosts| - 1];
      AcceptedEntries(boostData, newBoosts[..|newBoosts| - 1])
      && IsValidArcLink(last.link) && last.key in ToMap(boostData)
  }

  lemma {:induction false} AcceptedEntriesEach(boostData: Entries<Boost>, newBoosts: seq<Addition>, j: nat)
    requires AcceptedEntries(boostData, newBoosts) && j < |newBoosts|
    ensures IsValidArcLink(newBoosts[j].link) && newBoosts[j].key in ToMap(boostData)
  {
    if j < |newBoosts| - 1 {
      AcceptedEntriesEach(boostData, newBoosts[..|newBoosts| - 1], j);
    }
  }

  /**
   What a session saves has exactly the keys that were loaded (a new key never gets past the
   version step), and keeps every link valid when the loaded ones were.
   */
  lemma SessionSaveShape(boostData: Entries<Boost>, newBoosts: seq<Addition>)
    requires AcceptedEntries(boostData, newBoosts)
    ensures ToMap(ApplyBatch(boostData, newBoosts)).Keys == ToMap(boostData).Keys
    ensures AllLinksValid(boostData) ==> AllLinksValid(ApplyBatch(boostData, newBoosts))
  {
    forall j | 0 <= j < |newBoosts|
      ensures IsValidArcLink(newBoosts[j].link) && newBoosts[j].key in ToMap(boostData)
    {
      AcceptedEntriesEach(boostData, newBoosts, j);
    }
    ApplyBatchKeys(boostData, newBoosts);
    if AllLinksValid(boostData) {
      ApplyBatchKeepsLinksValid(boostData, newBoosts);
    }
  }

  /** How one round of prompts (key, link, version) ends. */
  datatype Step = Exited | LinkRejected | Crashed | Accepted

  /**
   The interactive session of `launchCommandLineUI`: the catalogue loaded at start-up, the
   list `newBoosts` of accepted entries, what the last save wrote, and the key waiting for
   its link (`None` while the key prompt is the next one).
   */
  class InteractiveSession {
    const boostData: Entries<Boost>
    var newBoosts: seq<Addition>
    var written: Option<Snapshot>
    var pending: Option<string>
    var open: bool

    ghost predicate Valid()
      reads this
    {
      && VersionsParse(boostData)
      && (written.None? <==> newBoosts == [])
      && (written.Some? ==> written.value == SaveChanges(boostData, newBoosts))
      && AcceptedEntries(boostData, newBoosts)
      && (pending.Some? ==> open && !IsExit(pending.value))
    }

    constructor (boostData: Entries<Boost>)
      requires VersionsParse(boostData)
      ensures Valid() && open
      ensures this.boostData == boostData && newBoosts == [] && written == None && pending == None
    {
      this.boostData := boostData;
      newBoosts := [];
      written := None;
      pending := None;
      open := true;
    }

    /**
     The key prompt of `addNewBoost`: a blank or "exit" key closes the session; any other
     key is held for the link prompt.
     */
    method EnterKey(key: string) returns (proceed: bool)
      requires Valid() && open && pending == None
      modifies this`open, this`pending
      ensures Valid()
      ensures proceed <==> !IsExit(key)
      ensures open == proceed
      ensures pending == if proceed then Some(key) else None
    {
      proceed := !IsExit(key);
      open := proceed;
      if proceed {
        pending := Some(key);
      }
    }

    /**
     The link and version prompts of `promptForLinkAndVersion` for the key held by the key
     prompt. A blank or "exit" link closes the session; a refused link goes back to the key
     prompt; otherwise the entry is appended to `newBoosts` and the whole list is folded over
     the catalogue loaded at start-up and saved. A key that was not loaded makes the version
     step throw, which ends the program with nothing more saved.
     */
    method EnterLinkAndVersion(link: string, versionInput: string) returns (step: Step)
      requires Valid() && open && pending.Some?
      modifies this`newBoosts, this`written, this`pending, this`open
      ensures Valid() && pending == None
      ensures var key := old(pending.value);
        && (step == Exited <==> IsExit(link))
        && (step == LinkRejected <==> !IsExit(link) && !IsValidArcLink(link))
        && (step == Crashed <==> !IsExit(link) && IsValidArcLink(link) && key !in ToMap(boostData))
        && (step == Accepted ==>
          && ChooseVersion(boostData, key, versionInput).Ok?
          && newBoosts == old(newBoosts) + [Addition(key, link, ChooseVersion(boostData, key, versionInput).value)]
          && written == Some(SaveChanges(boostData, newBoosts)))
      ensures step != Accepted ==> newBoosts == old(newBoosts) && written == old(written)
      ensures open <==> step == Accepted || step == LinkRejected
    {
      var key := pending.value;
      pending := None;
      if IsExit(link) {
        open := false;
        return Exited;
      }
      if !IsValidArcLink(link) {
        return LinkRejected;
      }
      var choice := ChooseVersion(boostData, key, versionInput);
      if choice.Err? {
        open := false;
        return Crashed;
      }
      ghost var before := newBoosts;
      newBoosts := newBoosts + [Addition(key, link, choice.value)];
      assert newBoosts[..|newBoosts| - 1] == before;
      written := Some(SaveChanges(boostData, newBoosts));
      step := Accepted;
    }
  }
}
