/** The accent-colour palette: the table of palettes, and the provider that
    restores the reader's choice from local storage on mount, persists every
    new choice there and mirrors it into the root element's `data-palette`
    attribute (absent for the default palette). Local storage is a map from
    keys to strings and the attribute an optional string. */
module PaletteProvider {
  import opened Numeric

  datatype Palette = Palette(id: string, color: string)

  const Palettes: seq<Palette> := [
    Palette("violet", "#6d28d9"),
    Palette("blue", "#2563eb"),
    Palette("emerald", "#059669"),
    Palette("rose", "#e11d48"),
    Palette("amber", "#d97706"),
    Palette("cyan", "#0891b2"),
    Palette("orange", "#ea580c"),
    Palette("pink", "#db2777"),
    Palette("indigo", "#4f46e5"),
    Palette("slate", "#475569")
  ]

  const DefaultPalette: string := "violet"
  const StorageKey: string := "portfolio-palette"

  /** `PALETTES.some((p) => p.id === s)`. */
  predicate IsPaletteId(s: string)
  {
    exists i :: 0 <= i < |Palettes| && Palettes[i].id == s
  }

  /** The table holds ten palettes, the default first, with pairwise
      distinct ids. */
  lemma PalettesSpec()
    ensures |Palettes| == 10
    ensures Palettes[0].id == DefaultPalette && IsPaletteId(DefaultPalette)
    ensures forall i, j :: 0 <= i < j < |Palettes| ==> Palettes[i].id != Palettes[j].id
  {
  }

  /** What the provider controls: its palette and mounted state, the
      storage and the root element's attribute. */
  datatype State = State(palette: string, mounted: bool, storage: map<string, string>, attribute: Option<string>)

  /** The attribute `setPalette` leaves for a palette. */
  function AttributeFor(p: string): (a: Option<string>)
    ensures a == None <==> p == DefaultPalette
    ensures a.Some? ==> a.value == p
  {
    if p == DefaultPalette then None else Some(p)
  }

  /** `setPalette(p)`. */
  function AfterSet(s: State, p: string): State
  {
    State(p, s.mounted, s.storage[StorageKey := p], AttributeFor(p))
  }

  /** The stored value, when there is one and it is a palette id. */
  function Restorable(storage: map<string, string>): Option<string>
  {
    if StorageKey in storage && storage[StorageKey] != "" && IsPaletteId(storage[StorageKey])
    then Some(storage[StorageKey])
    else None
  }

  /** The mount effect. */
  function AfterMount(s: State): State
  {
    match Restorable(s.storage)
    case Some(stored) => State(stored, true, s.storage, Some(stored))
    case None => State(s.palette, true, s.storage, s.attribute)
  }

  /** After `setPalette(p)` the palette is p, the storage slot holds p and
      nothing else in storage changed, the attribute is absent exactly for
      the default palette and p otherwise, and the mounted flag is kept. */
  lemma AfterSetSpec(s: State, p: string)
    ensures AfterSet(s, p).palette == p && AfterSet(s, p).mounted == s.mounted
    ensures StorageKey in AfterSet(s, p).storage && AfterSet(s, p).storage[StorageKey] == p
    ensures forall k :: k in s.storage && k != StorageKey ==> k in AfterSet(s, p).storage && AfterSet(s, p).storage[k] == s.storage[k]
    ensures forall k :: k in AfterSet(s, p).storage ==> k in s.storage || k == StorageKey
    ensures AfterSet(s, p).attribute == None <==> p == DefaultPalette
    ensures p != DefaultPalette ==> AfterSet(s, p).attribute == Some(p)
  {
  }

  /** Setting the same palette twice is the same as setting it once. */
  lemma AfterSetIdempotent(s: State, p: string)
    ensures AfterSet(AfterSet(s, p), p) == AfterSet(s, p)
  {
    var once := AfterSet(s, p);
    assert once.storage[StorageKey := p] == once.storage;
  }

  /** Setting a palette and then another is the same as setting only the
      second. */
  lemma AfterSetLastWins(s: State, p: string, q: string)
    ensures AfterSet(AfterSet(s, p), q) == AfterSet(s, q)
  {
    assert s.storage[StorageKey := p][StorageKey := q] == s.storage[StorageKey := q];
  }

  /** Mounting always sets the mounted flag and never writes storage; it
      adopts a stored value (palette and attribute) exactly when it is a
      palette id, and leaves palette and attribute alone otherwise. */
  lemma AfterMountSpec(s: State)
    ensures AfterMount(s).mounted && AfterMount(s).storage == s.storage
    ensures StorageKey in s.storage && IsPaletteId(s.storage[StorageKey]) ==>
              AfterMount(s).palette == s.storage[StorageKey] && AfterMount(s).attribute == Some(s.storage[StorageKey])
    ensures !(StorageKey in s.storage && IsPaletteId(s.storage[StorageKey])) ==>
              AfterMount(s).palette == s.palette && AfterMount(s).attribute == s.attribute
    ensures IsPaletteId(s.palette) ==> IsPaletteId(AfterMount(s).palette)
  {
    if StorageKey in s.storage && IsPaletteId(s.storage[StorageKey]) {
      PalettesSpec();
      assert s.storage[StorageKey] != "";
    }
  }

  /** Restoring a stored default palette sets the attribute to it, whereas
      choosing the default palette removes the attribute: the two paths
      leave the same palette but different attributes. */
  lemma DefaultRestoreDiffers(s: State)
    requires StorageKey in s.storage && s.storage[StorageKey] == DefaultPalette
    ensures AfterMount(s).palette == AfterSet(s, DefaultPalette).palette
    ensures AfterMount(s).attribute == Some(DefaultPalette)
    ensures AfterSet(s, DefaultPalette).attribute == None
  {
    PalettesSpec();
  }

  /** A mounted provider's own choice survives a remount: storing p and
      mounting again restores p. */
  lemma SetThenMountRestores(s: State, p: string)
    requires IsPaletteId(p)
    ensures AfterMount(AfterSet(s, p)).palette == p
    ensures AfterMount(AfterSet(s, p)).attribute == Some(p)
  {
    PalettesSpec();
    var i :| 0 <= i < |Palettes| && Palettes[i].id == p;
    assert p != "";
  }

  /** The palette and setter `usePalette` hands out: the context default
      (the default palette, a setter that does nothing) until mounted. */
  function ContextPalette(s: State): string
  {
    if s.mounted then s.palette else DefaultPalette
  }

  /** A consumer calling the context's setter. */
  function AfterContextSet(s: State, p: string): State
  {
    if s.mounted then AfterSet(s, p) else s
  }

  /** Before mount the setter changes nothing; after it, it is `setPalette`
      and the consumer then sees its choice. */
  lemma AfterContextSetSpec(s: State, p: string)
    ensures !s.mounted ==> AfterContextSet(s, p) == s
    ensures s.mounted ==> ContextPalette(AfterContextSet(s, p)) == p
  {
  }

  /** The `PaletteProvider` component together with the browser state it
      writes. */
  class Provider {
    var palette: string
    var mounted: bool
    var storage: map<string, string>
    var attribute: Option<string>

    function Snapshot(): State
      reads this
    {
      State(palette, mounted, storage, attribute)
    }

    ghost predicate Valid()
      reads this
    {
      IsPaletteId(palette)
    }

    /** The first render: the default palette, not yet mounted; storage and
        the attribute are whatever the browser holds. */
    constructor (storage: map<string, string>, attribute: Option<string>)
      ensures Valid()
      ensures Snapshot() == State(DefaultPalette, false, storage, attribute)
    {
      palette := DefaultPalette;
      mounted := false;
      this.storage := storage;
      this.attribute := attribute;
      new;
      PalettesSpec();
    }

    /** The mount effect. */
    method Mount()
      requires Valid()
      modifies this
      ensures Valid()
      ensures Snapshot() == AfterMount(old(Snapshot()))
    {
      var stored := if StorageKey in storage then Some(storage[StorageKey]) else None;
      if stored.Some? && stored.value != "" && IsPaletteId(stored.value) {
        palette := stored.value;
        attribute := Some(stored.value);
      }
      mounted := true;
    }

    /** `setPalette`, whose argument the type system restricts to palette
        ids. */
    method SetPalette(newPalette: string)
      requires Valid() && IsPaletteId(newPalette)
      modifies this
      ensures Valid()
      ensures Snapshot() == AfterSet(old(Snapshot()), newPalette)
    {
      palette := newPalette;
      storage := storage[StorageKey := newPalette];
      if newPalette == DefaultPalette {
        attribute := None;
      } else {
        attribute := Some(newPalette);
      }
    }
  }
}
