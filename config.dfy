/**
 * The named configuration store: one YAML file `<name>.yml` per connection
 * profile in the config folder. The folder is a map from file name to the
 * record its YAML text parses to.
 */
module Config {
  import opened Values
  import opened Schema

  /** The file a config called `name` is stored in. */
  function FileName(name: string): string
  {
    name + ".yml"
  }

  /** `getConfigFilePath`: the config folder joined with `<name>.yml`. */
  function FilePath(folder: string, name: string): string
  {
    folder + "/" + FileName(name)
  }

  /** `file.slice(0, -4)`: the file name without its last four characters
      (nothing is left of a shorter name). */
  function NameOfFile(file: string): (name: string)
  {
    if |file| >= 4 then file[..|file| - 4] else ""
  }

  /** Listing a stored file gives back the name it was stored under. */
  lemma NameOfFileName(name: string)
    ensures NameOfFile(FileName(name)) == name
  {
    assert FileName(name)[..|name|] == name;
  }

  /** Distinct names are stored under distinct file names. */
  lemma FileNameInjective(a: string, b: string)
    ensures FileName(a) == FileName(b) <==> a == b
  {
    if FileName(a) == FileName(b) {
      assert |a| == |b|;
      assert a == FileName(a)[..|a|] && b == FileName(b)[..|b|];
    }
  }

  /** Distinct config names are stored at distinct paths. A config name
      holds no `/` or `.`, so `path.join` has nothing to normalise and
      joining is concatenation. */
  lemma FilePathInjective(folder: string, a: string, b: string)
    requires IsConfigName(Str(a)) && IsConfigName(Str(b))
    requires FilePath(folder, a) == FilePath(folder, b)
    ensures a == b
  {
    var pa, pb := FilePath(folder, a), FilePath(folder, b);
    assert |a| == |b|;
    assert a == pa[|folder| + 1..|folder| + 1 + |a|];
    assert b == pb[|folder| + 1..|folder| + 1 + |b|];
  }

  /** The first step of `addAction`: `port` and `connectionLimit` pass
      through `Number`, when present; every other option is kept. */
  function CoerceNumbers(options: Record): (r: Record)
    ensures r.Keys == options.Keys
    ensures "port" in options ==> r["port"] == Number(options["port"])
    ensures "connectionLimit" in options ==> r["connectionLimit"] == Number(options["connectionLimit"])
    ensures forall k :: k in options && k != "port" && k != "connectionLimit" ==> r[k] == options[k]
  {
    var withPort := if "port" in options then options["port" := Number(options["port"])] else options;
    if "connectionLimit" in withPort
    then withPort["connectionLimit" := Number(withPort["connectionLimit"])]
    else withPort
  }

  /** The record `addAction` writes: the six pool fields and nothing else. */
  function StoredRecord(options: Record): (r: Record)
    requires HasPoolKeys(options)
    ensures r.Keys == {"host", "port", "user", "password", "database", "connectionLimit"}
    ensures forall k :: k in r ==> r[k] == options[k]
  {
    map["host" := options["host"], "port" := options["port"], "user" := options["user"],
        "password" := options["password"], "database" := options["database"],
        "connectionLimit" := options["connectionLimit"]]
  }

  /** What a valid config stores is a valid pool profile without the name. */
  lemma StoredRecordIsPoolProfile(options: Record)
    requires ValidConfig(Obj(options))
    ensures ValidPoolProfile(Obj(StoredRecord(options)))
    ensures "name" !in StoredRecord(options)
  {
  }

  /** A port given as text on the command line: a negative number passes,
      because the lower bound is not enforced. */
  lemma NegativePortAccepted(options: Record)
    requires ValidConfig(Obj(options))
    ensures ValidConfig(Obj(CoerceNumbers(options["port" := Str("-1")])))
  {
    var o := options["port" := Str("-1")];
    var s := "-1";
    assert !AllDigits(s) by { assert !IsDigit(s[0]); }
    assert s[1..] == "1";
    assert DecimalValue("1") == 1 by { assert "1"[..0] == ""; }
    assert Number(Str(s)) == Int(-1);
    assert CoerceNumbers(o)["port"] == Int(-1);
  }

  datatype AddOutcome = InvalidOptions | AlreadyExists | Added
  datatype RemoveOutcome = InvalidName | UnknownName | Removed

  class ConfigStore {
    const folder: string
    var files: map<string, Record>

    constructor (folder: string, files: map<string, Record>)
      ensures this.folder == folder && this.files == files
    {
      this.folder := folder;
      this.files := files;
    }

    /** `isValidConfigName`: whether `<name>.yml` exists. */
    predicate IsValidConfigName(name: string)
      reads this
    {
      FileName(name) in files
    }

    /** `addAction`. */
    method AddAction(options: Record) returns (outcome: AddOutcome)
      modifies this
      ensures var opts := CoerceNumbers(options);
              if !ValidConfig(Obj(opts)) then outcome == InvalidOptions && files == old(files)
              else if FileName(opts["name"].s) in old(files) then outcome == AlreadyExists && files == old(files)
              else outcome == Added && files == old(files)[FileName(opts["name"].s) := StoredRecord(opts)]
    {
      var opts := CoerceNumbers(options);
      if !ValidConfig(Obj(opts)) {
        return InvalidOptions;
      }
      var name := opts["name"].s;
      if IsValidConfigName(name) {
        return AlreadyExists;
      }
      files := files[FileName(name) := StoredRecord(opts)];
      return Added;
    }

    /** `listAction`: every file of the folder, in the order the directory
        gives them (`order`, each file once), as `<index> -> <name>` with
        indexes from 1. */
    method ListAction() returns (listing: seq<(nat, string)>, ghost order: seq<string>)
      ensures |listing| == |files| && forall i :: 0 <= i < |listing| ==> listing[i].0 == i + 1
      ensures |order| == |files|
      ensures forall f :: f in files <==> f in order
      ensures forall i :: 0 <= i < |listing| ==> listing[i] == (i + 1, NameOfFile(order[i]))
    {
      listing, order := [], [];
      var remaining := files.Keys;
      while remaining != {}
        invariant remaining <= files.Keys
        invariant |listing| == |order| && |listing| + |remaining| == |files|
        invariant forall i :: 0 <= i < |listing| ==> listing[i] == (i + 1, NameOfFile(order[i]))
        invariant forall f :: f in files <==> f in remaining || f in order
        invariant forall f :: f in remaining ==> f !in order
        decreases remaining
      {
        var file :| file in remaining;
        listing := listing + [(|listing| + 1, NameOfFile(file))];
        order := order + [file];
        remaining := remaining - {file};
      }
    }

    /** `removeAction`: deletes `<name>.yml` when the name passes the
        `config_name` rule and the file exists. */
    method RemoveAction(name: Value) returns (outcome: RemoveOutcome)
      modifies this
      ensures !IsConfigName(name) ==> outcome == InvalidName && files == old(files)
      ensures IsConfigName(name) && FileName(name.s) !in old(files) ==> outcome == UnknownName && files == old(files)
      ensures IsConfigName(name) && FileName(name.s) in old(files) ==>
                outcome == Removed && files == old(files) - {FileName(name.s)}
    {
      if !IsConfigName(name) {
        return InvalidName;
      }
      if !IsValidConfigName(name.s) {
        return UnknownName;
      }
      files := files - {FileName(name.s)};
      return Removed;
    }
  }
}
