/** The two one-shot keybind migrations of src/keybinds.rs. */
module Keybinds {
  import Text

  /** Key specs by action name. */
  type Binds = map<string, seq<string>>

  const MIGRATED: set<string> := {"tab_sftp", "tab_tunnels", "tab_keys", "tab_audit", "help"}

  /** The digit `from` becomes `to`, everything else stays where it is. */
  function Shifted(binds: seq<string>, from: string, to: string): (r: seq<string>)
    ensures |r| == |binds|
    ensures forall i :: 0 <= i < |r| ==> r[i] == if binds[i] == from then to else binds[i]
  {
    seq(|binds|, i requires 0 <= i < |binds| => if binds[i] == from then to else binds[i])
  }

  /** The raw text knows tabs, but not the SFTP tab. */
  predicate PreSftp(raw: string) {
    !Text.Contains(raw, "tab_sftp")
    && (Text.Contains(raw, "tab_tunnels") || Text.Contains(raw, "tab_keys") || Text.Contains(raw, "tab_audit"))
  }

  /** A spec the migration knows by its text to shadow the known-hosts key. */
  predicate ShadowsKnownHosts(spec: string) {
    Text.SameIgnoringCase(Text.Trim(spec), "Shift+H") || Text.Trim(spec) == "H"
  }

  function Unshadowed(binds: seq<string>): (r: seq<string>)
    ensures forall b :: b in r <==> b in binds && !ShadowsKnownHosts(b)
    ensures |r| <= |binds|
    ensures |r| == |binds| ==> r == binds
  {
    if binds == [] then []
    else Keep(Unshadowed(binds[..|binds| - 1]), binds[|binds| - 1])
  }

  function Keep(kept: seq<string>, spec: string): seq<string> {
    if ShadowsKnownHosts(spec) then kept else kept + [spec]
  }

  lemma QuestionMarkIsFree()
    ensures !ShadowsKnownHosts("?")
  {
    assert Text.Trim("?") == "?";
  }

  function HelpFreed(help: seq<string>): (r: seq<string>)
    ensures r != [] && forall b :: b in r ==> !ShadowsKnownHosts(b)
  {
    QuestionMarkIsFree();
    if Unshadowed(help) == [] then ["?"] else Unshadowed(help)
  }

  /** What the two migrations make of the binds, for a given raw text. */
  function TabsMigrated(raw: string, binds: Binds): Binds
    requires MIGRATED <= binds.Keys
  {
    if !PreSftp(raw) then binds
    else binds["tab_tunnels" := Shifted(binds["tab_tunnels"], "2", "3")]
              ["tab_keys" := Shifted(binds["tab_keys"], "3", "4")]
              ["tab_audit" := Shifted(binds["tab_audit"], "4", "5")]
              ["tab_sftp" := if binds["tab_sftp"] == [] then ["2"] else binds["tab_sftp"]]
  }

  function HelpMigrated(raw: string, binds: Binds): Binds
    requires MIGRATED <= binds.Keys
  {
    if Text.Contains(raw, "known_hosts") then binds else binds["help" := HelpFreed(binds["help"])]
  }

  class KeybindsConfig {
    var binds: Binds

    constructor (binds: Binds)
      ensures this.binds == binds
    {
      this.binds := binds;
    }

    method Shift(action: string, from: string, to: string)
      requires action in binds
      modifies this
      ensures binds == old(binds)[action := Shifted(old(binds[action]), from, to)]
    {
      var i := 0;
      while i < |binds[action]|
        invariant action in binds && binds == old(binds)[action := binds[action]]
        invariant |binds[action]| == |old(binds[action])| && i <= |binds[action]|
        invariant forall k :: 0 <= k < |binds[action]| ==>
          binds[action][k] == if k < i && old(binds[action])[k] == from then to else old(binds[action])[k]
      {
        if binds[action][i] == from {
          binds := binds[action := binds[action][i := to]];
        }
        i := i + 1;
      }
      assert binds[action] == Shifted(old(binds[action]), from, to);
    }

    method MigratePreSftpTabs(raw: string) returns (migrated: bool)
      requires MIGRATED <= binds.Keys
      modifies this
      ensures binds == TabsMigrated(raw, old(binds))
      ensures migrated <==> PreSftp(raw)
    {
      if Text.Contains(raw, "tab_sftp")
         || !(Text.Contains(raw, "tab_tunnels") || Text.Contains(raw, "tab_keys") || Text.Contains(raw, "tab_audit")) {
        return false;
      }
      Shift("tab_tunnels", "2", "3");
      Shift("tab_keys", "3", "4");
      Shift("tab_audit", "4", "5");
      if binds["tab_sftp"] == [] {
        binds := binds["tab_sftp" := ["2"]];
      }
      assert binds == TabsMigrated(raw, old(binds));
      return true;
    }

    method MigrateHelpFreesKnownHosts(raw: string) returns (migrated: bool)
      requires MIGRATED <= binds.Keys
      modifies this
      ensures binds == HelpMigrated(raw, old(binds))
      ensures migrated <==> binds["help"] != old(binds["help"])
    {
      if Text.Contains(raw, "known_hosts") {
        return false;
      }
      var before := binds["help"];
      var kept := RetainUnshadowed(before);
      binds := binds["help" := if kept == [] then ["?"] else kept];
      return binds["help"] != before;
    }
  }

  lemma UnshadowedGrows(specs: seq<string>, i: nat)
    requires i < |specs|
    ensures Unshadowed(specs[..i + 1]) == Keep(Unshadowed(specs[..i]), specs[i])
  {
    assert specs[..i + 1][..i] == specs[..i];
  }

  method RetainUnshadowed(specs: seq<string>) returns (kept: seq<string>)
    ensures kept == Unshadowed(specs)
  {
    kept := [];
    for i := 0 to |specs|
      invariant kept == Unshadowed(specs[..i])
    {
      UnshadowedGrows(specs, i);
      kept := Keep(kept, specs[i]);
    }
    assert specs[..|specs|] == specs;
  }

  /** Repeating either migration on the same text changes nothing further. */
  lemma TabsMigrateOnce(raw: string, binds: Binds)
    requires MIGRATED <= binds.Keys
    ensures TabsMigrated(raw, TabsMigrated(raw, binds)) == TabsMigrated(raw, binds)
  {
    if PreSftp(raw) {
      var tabs := TabsMigrated(raw, binds);
      ShiftsOnce(binds["tab_tunnels"], "2", "3");
      ShiftsOnce(binds["tab_keys"], "3", "4");
      ShiftsOnce(binds["tab_audit"], "4", "5");
      assert forall k :: k in tabs ==> TabsMigrated(raw, tabs)[k] == tabs[k];
    }
  }

  lemma ShiftsOnce(binds: seq<string>, from: string, to: string)
    requires from != to
    ensures Shifted(Shifted(binds, from, to), from, to) == Shifted(binds, from, to)
  {
  }

  lemma HelpMigratesOnce(raw: string, binds: Binds)
    requires MIGRATED <= binds.Keys
    ensures HelpMigrated(raw, HelpMigrated(raw, binds)) == HelpMigrated(raw, binds)
  {
    UnshadowedKeepsAll(HelpFreed(binds["help"]));
  }

  lemma {:induction false} UnshadowedKeepsAll(specs: seq<string>)
    requires forall b :: b in specs ==> !ShadowsKnownHosts(b)
    ensures Unshadowed(specs) == specs
  {
    if specs != [] {
      UnshadowedKeepsAll(specs[..|specs| - 1]);
    }
  }

  const DIGITS: set<string> := {"2", "3", "4", "5"}

  predicate Apart(a: seq<string>, b: seq<string>) {
    forall x :: x in a ==> x !in b
  }

  /** The layout the migration is written for: each of the three tabs uses at
      most its own old digit and no two share a spec. */
  predicate OldLayout(binds: Binds)
    requires MIGRATED <= binds.Keys
  {
    (forall x :: x in binds["tab_tunnels"] && x in DIGITS ==> x == "2")
    && (forall x :: x in binds["tab_keys"] && x in DIGITS ==> x == "3")
    && (forall x :: x in binds["tab_audit"] && x in DIGITS ==> x == "4")
    && Apart(binds["tab_tunnels"], binds["tab_keys"]) && Apart(binds["tab_keys"], binds["tab_audit"])
    && Apart(binds["tab_tunnels"], binds["tab_audit"])
  }

  /** From that layout no tab ends up hidden behind another: the SFTP tab's own
      digit is free, and the three old tabs still share nothing. */
  lemma NoTabShadowsAnother(raw: string, binds: Binds)
    requires MIGRATED <= binds.Keys && OldLayout(binds) && PreSftp(raw)
    ensures var m := TabsMigrated(raw, binds);
            "2" !in m["tab_tunnels"] && "2" !in m["tab_keys"] && "2" !in m["tab_audit"]
            && Apart(m["tab_tunnels"], m["tab_keys"]) && Apart(m["tab_keys"], m["tab_audit"])
            && Apart(m["tab_tunnels"], m["tab_audit"])
  {
    ShiftedHolds(binds["tab_tunnels"], "2", "3");
    ShiftedHolds(binds["tab_keys"], "3", "4");
    ShiftedHolds(binds["tab_audit"], "4", "5");
  }

  lemma ShiftedHolds(binds: seq<string>, from: string, to: string)
    ensures forall x :: x in Shifted(binds, from, to) <==> (x in binds && x != from) || (x == to && from in binds)
  {
  }
}
