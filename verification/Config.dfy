/** Local features: arguments overlaid by a config directory (service/config.go, updateFeatures in service/node.go). */
module Config {
  import opened Base
  import Json

  /** What reading a file gives; `notExist` is whether the error is the very os.ErrNotExist the handler compares with. */
  datatype Read = Data(text: string) | Failed(notExist: bool)

  datatype Entry = Entry(name: string, isDir: bool, read: Read)

  predicate IsNameChar(c: char) {
    'a' <= c <= 'z' || 'A' <= c <= 'Z' || '0' <= c <= '9' || c == '-' || c == '_'
  }

  predicate IsFeatureName(name: string) {
    name != "" && forall i :: 0 <= i < |name| ==> IsNameChar(name[i])
  }

  predicate IsFeatureFile(entry: Entry) {
    !entry.isDir && IsFeatureName(entry.name)
  }

  /** Space as bytes.TrimSpace sees it. */
  predicate IsBlankChar(c: char) {
    '\t' <= c <= '\r' || c == ' ' || c == '\U{85}' || c == '\U{a0}' || c == '\U{1680}' || '\U{2000}' <= c <= '\U{200a}' ||
    c == '\U{2028}' || c == '\U{2029}' || c == '\U{202f}' || c == '\U{205f}' || c == '\U{3000}'
  }

  predicate IsBlank(text: string) {
    forall i :: 0 <= i < |text| ==> IsBlankChar(text[i])
  }

  function TrimLeft(text: string): string {
    if text != [] && Json.IsSpace(text[0]) then TrimLeft(text[1..]) else text
  }

  function TrimRight(text: string): string {
    if text != [] && Json.IsSpace(text[|text| - 1]) then TrimRight(text[..|text| - 1]) else text
  }

  /** The raw JSON of a document. */
  function Raw(text: string): string {
    TrimRight(TrimLeft(text))
  }

  lemma {:induction false} TrimLeftRemoves(text: string) returns (before: string)
    ensures text == before + TrimLeft(text) && forall c :: c in before ==> Json.IsSpace(c)
    ensures TrimLeft(text) != [] ==> !Json.IsSpace(TrimLeft(text)[0])
  {
    before := [];
    if text != [] && Json.IsSpace(text[0]) {
      before := TrimLeftRemoves(text[1..]);
      before := [text[0]] + before;
    }
  }

  lemma {:induction false} TrimRightRemoves(text: string) returns (after: string)
    ensures text == TrimRight(text) + after && forall c :: c in after ==> Json.IsSpace(c)
    ensures TrimRight(text) != [] ==> !Json.IsSpace(TrimRight(text)[|TrimRight(text)| - 1])
  {
    after := [];
    if text != [] && Json.IsSpace(text[|text| - 1]) {
      after := TrimRightRemoves(text[..|text| - 1]);
      after := after + [text[|text| - 1]];
    }
  }

  /** The raw JSON is the text without the space around it. */
  lemma RawIsTrimmed(text: string) returns (before: string, after: string)
    ensures text == before + Raw(text) + after
    ensures forall c :: c in before + after ==> Json.IsSpace(c)
    ensures var raw := Raw(text); raw != [] ==> !Json.IsSpace(raw[0]) && !Json.IsSpace(raw[|raw| - 1])
  {
    before := TrimLeftRemoves(text);
    after := TrimRightRemoves(TrimLeft(text));
    var raw := Raw(text);
    assert TrimLeft(text) == raw + after;
    assert raw != [] ==> raw[0] == TrimLeft(text)[0];
  }

  datatype Effect = Keep | Remove | Set(value: string)

  /** What a feature file does to the argument of its name. */
  function EffectOf(read: Read): Effect {
    match read
    case Failed(notExist) => if notExist then Remove else Keep
    case Data(text) =>
      if IsBlank(text) then Remove
      else if Json.Decode(text).Some? then Set(Raw(text))
      else Keep
  }

  /** A directory holds each name once. */
  ghost predicate Listing(entries: seq<Entry>) {
    forall i, j :: 0 <= i < j < |entries| ==> entries[i].name != entries[j].name
  }

  /** The effect of the feature file of that name, if there is one. */
  function EffectOn(name: string, entries: seq<Entry>): Effect {
    if entries == [] then Keep
    else
      var last := entries[|entries| - 1];
      if IsFeatureFile(last) && last.name == name then EffectOf(last.read)
      else EffectOn(name, entries[..|entries| - 1])
  }

  /** In a directory a file's effect is its own, whatever its place, and a name without a file keeps its argument. */
  lemma {:induction false} EffectIsOfTheFile(name: string, entries: seq<Entry>)
    requires Listing(entries)
    ensures forall i :: 0 <= i < |entries| && IsFeatureFile(entries[i]) && entries[i].name == name ==>
      EffectOn(name, entries) == EffectOf(entries[i].read)
    ensures (forall i :: 0 <= i < |entries| ==> !(IsFeatureFile(entries[i]) && entries[i].name == name)) ==>
      EffectOn(name, entries) == Keep
  {
    if entries != [] {
      EffectIsOfTheFile(name, entries[..|entries| - 1]);
    }
  }

  /** A valid file wins, a blank one deletes, and otherwise the argument stands. */
  ghost predicate OverlaidAt(arguments: Features, entries: seq<Entry>, features: Features, name: string) {
    match EffectOn(name, entries)
    case Set(value) => name in features && features[name] == value
    case Remove => name !in features
    case Keep => if name in arguments then name in features && features[name] == arguments[name] else name !in features
  }

  ghost predicate IsOverlay(arguments: Features, entries: seq<Entry>, features: Features) {
    forall name :: OverlaidAt(arguments, entries, features, name)
  }

  /** Both have the feature with the same value, or neither has it. */
  ghost predicate SameAt(a: Features, b: Features, name: string) {
    if name in a then name in b && a[name] == b[name] else name !in b
  }

  /** An overlay, file by file. */
  lemma OverlayOfEveryFile(arguments: Features, entries: seq<Entry>, features: Features)
    requires Listing(entries) && IsOverlay(arguments, entries, features)
    ensures forall i :: 0 <= i < |entries| && !entries[i].isDir && IsFeatureName(entries[i].name) ==>
      var name := entries[i].name;
      match entries[i].read
      case Failed(notExist) => if notExist then name !in features else SameAt(features, arguments, name)
      case Data(text) =>
        if IsBlank(text) then name !in features
        else if Json.Decode(text).Some? then name in features && features[name] == Raw(text)
        else SameAt(features, arguments, name)
    ensures forall name ::
      (exists i :: 0 <= i < |entries| && !entries[i].isDir && IsFeatureName(name) && entries[i].name == name) ||
      SameAt(features, arguments, name)
  {
    forall i | 0 <= i < |entries| && IsFeatureFile(entries[i])
      ensures OverlaidAt(arguments, entries, features, entries[i].name)
      ensures EffectOn(entries[i].name, entries) == EffectOf(entries[i].read)
    {
      EffectIsOfTheFile(entries[i].name, entries);
    }
    forall name | forall i :: 0 <= i < |entries| ==> !(IsFeatureFile(entries[i]) && entries[i].name == name)
      ensures SameAt(features, arguments, name)
    {
      EffectIsOfTheFile(name, entries);
      assert OverlaidAt(arguments, entries, features, name);
    }
  }

  /** There is only one overlay of a directory, in whatever order it is listed: the features have no history. */
  lemma OverlayIsUnique(arguments: Features, xs: seq<Entry>, ys: seq<Entry>, a: Features, b: Features)
    requires Listing(xs) && Listing(ys) && forall entry :: entry in xs <==> entry in ys
    requires IsOverlay(arguments, xs, a) && IsOverlay(arguments, ys, b)
    ensures a == b
  {
    forall name
      ensures name in a <==> name in b
      ensures name in a ==> a[name] == b[name]
    {
      EffectIsOfTheFile(name, xs);
      EffectIsOfTheFile(name, ys);
      assert forall i :: 0 <= i < |xs| ==> xs[i] in ys;
      assert forall i :: 0 <= i < |ys| ==> ys[i] in xs;
      assert EffectOn(name, xs) == EffectOn(name, ys);
      assert OverlaidAt(arguments, xs, a, name) && OverlaidAt(arguments, ys, b, name);
    }
  }

  ghost predicate LastListed(listings: seq<Option<seq<Entry>>>, i: int) {
    0 <= i < |listings| && listings[i].Some? && forall j :: i < j < |listings| ==> listings[j].None?
  }

  lemma LastListedStep(listings: seq<Option<seq<Entry>>>, k: int, i: int)
    requires 0 <= k < |listings| && LastListed(listings[..k + 1], i)
    ensures if listings[k].Some? then i == k else LastListed(listings[..k], i)
  {
    assert listings[..k + 1][k] == listings[k];
    if listings[k].None? {
      assert forall j :: 0 <= j < k ==> listings[..k][j] == listings[..k + 1][j];
    }
  }

  class LocalNode {
    var features: Features
    ghost var nodesSet: nat

    constructor ()
      ensures features == map[] && nodesSet == 0
    {
      features, nodesSet := map[], 0;
    }

    /** Sets a new node exactly when the features differ in content. */
    method UpdateFeatures(newFeatures: Features) returns (update: bool)
      modifies this
      ensures update <==> newFeatures != old(features)
      ensures features == newFeatures
      ensures nodesSet == old(nodesSet) + if update then 1 else 0
    {
      update := false;
      var unseen := newFeatures.Keys;
      while unseen != {} && !update
        invariant unseen <= newFeatures.Keys
        invariant update ==> newFeatures != features
        invariant !update ==> forall name :: name in newFeatures && name !in unseen ==>
          name in features && features[name] == newFeatures[name]
        decreases unseen
      {
        var name :| name in unseen;
        unseen := unseen - {name};
        if name !in features || newFeatures[name] != features[name] {
          update := true;
        }
      }
      if !update {
        unseen := features.Keys;
        while unseen != {} && !update
          invariant unseen <= features.Keys
          invariant update ==> newFeatures != features
          invariant !update ==> forall name :: name in features && name !in unseen ==> name in newFeatures
          decreases unseen
        {
          var name :| name in unseen;
          unseen := unseen - {name};
          if name !in newFeatures {
            update := true;
          }
        }
      }
      if update {
        features := newFeatures;
        nodesSet := nodesSet + 1;
      } else {
        assert newFeatures.Keys == features.Keys;
      }
    }
  }

  class FeatureConfig {
    const arguments: Features
    const local: LocalNode
    var notify: bool

    constructor (arguments: Features, local: LocalNode)
      ensures this.arguments == arguments && this.local == local && !notify
    {
      this.arguments, this.local, notify := arguments, local, false;
    }

    /**
     The handler's loops: a copy of the arguments, then each feature file's effect on it. A file that is blank, or is
     not there, removes its feature, a JSON document sets it to the raw JSON, and any other leaves the argument.
    */
    method Overlay(entries: seq<Entry>) returns (features: Features)
      requires Listing(entries)
      ensures IsOverlay(arguments, entries, features)
      ensures forall i :: 0 <= i < |entries| && !entries[i].isDir && IsFeatureName(entries[i].name) ==>
        var name := entries[i].name;
        match entries[i].read
        case Failed(notExist) => if notExist then name !in features else SameAt(features, arguments, name)
        case Data(text) =>
          if IsBlank(text) then name !in features
          else if Json.Decode(text).Some? then name in features && features[name] == Raw(text)
          else SameAt(features, arguments, name)
      ensures forall name ::
        (exists i :: 0 <= i < |entries| && !entries[i].isDir && IsFeatureName(name) && entries[i].name == name) ||
        SameAt(features, arguments, name)
    {
      features := arguments;
      var i := 0;
      while i < |entries|
        invariant 0 <= i <= |entries|
        invariant IsOverlay(arguments, entries[..i], features)
      {
        var entry := entries[i];
        ghost var before := features;
        if IsFeatureFile(entry) {
          match EffectOf(entry.read)
          case Keep =>
          case Remove => features := features - {entry.name};
          case Set(value) => features := features[entry.name := value];
        }
        ghost var listed := entries[..i + 1];
        forall name
          ensures OverlaidAt(arguments, listed, features, name)
        {
          assert listed[..i] == entries[..i];
          assert OverlaidAt(arguments, entries[..i], before, name);
          EffectIsOfTheFile(name, entries[..i]);
        }
        i := i + 1;
      }
      assert entries[..i] == entries;
      OverlayOfEveryFile(arguments, entries, features);
    }

    /** A scan whose listing fails changes nothing; any other makes the local features those of the directory. */
    method ScanConfig(listing: Option<seq<Entry>>)
      requires listing.Some? ==> Listing(listing.value)
      requires this as object != local
      modifies this, local
      ensures listing.Some? ==> IsOverlay(arguments, listing.value, local.features)
      ensures listing == None ==> local.features == old(local.features)
      ensures local.nodesSet == old(local.nodesSet) + if local.features != old(local.features) then 1 else 0
      ensures notify <==> old(notify) || local.features != old(local.features)
    {
      if listing == None {
        return;
      }
      var features := Overlay(listing.value);
      var update := local.UpdateFeatures(features);
      if update {
        notify := true;
      }
    }

    /** Any run of scans leaves the features of the last directory that could be listed. */
    method ScanConfigLoop(listings: seq<Option<seq<Entry>>>)
      requires forall i :: 0 <= i < |listings| && listings[i].Some? ==> Listing(listings[i].value)
      requires this as object != local
      modifies this, local
      ensures forall i :: LastListed(listings, i) ==> IsOverlay(arguments, listings[i].value, local.features)
      ensures local.features != old(local.features) ==> notify
    {
      var k := 0;
      while k < |listings|
        invariant 0 <= k <= |listings|
        invariant forall i :: LastListed(listings[..k], i) ==> IsOverlay(arguments, listings[i].value, local.features)
        invariant local.features != old(local.features) ==> notify
        invariant old(notify) ==> notify
      {
        forall i | LastListed(listings[..k + 1], i)
          ensures if listings[k].Some? then i == k else LastListed(listings[..k], i)
        {
          LastListedStep(listings, k, i);
        }
        ScanConfig(listings[k]);
        k := k + 1;
      }
      assert listings[..k] == listings;
    }
  }
}
