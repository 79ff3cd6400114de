/**
 * Material profiles (materials.ts): the two built-in profiles T1 and T2, the
 * merge that guarantees both are present in the stored list, and lookup by id.
 * The browser's `localStorage` read is an input value, `Storage`.
 */
module Materials {
  import opened Wrappers

  /** A distance band that applies below `maxDist` (mm) and dwells `tempo` seconds. */
  datatype ShortTier = ShortTier(maxDist: real, tempo: real)

  /** The open-ended top band; `minDist` is configuration only, the classifier never reads it. */
  datatype LongTier = LongTier(minDist: real, tempo: real)

  datatype Pausas = Pausas(short: ShortTier, medium: ShortTier, long: LongTier)

  /** `MaterialConfig`: an EPS foam profile with its feed rate (mm/min) and pause tiers. */
  datatype MaterialConfig = MaterialConfig(
    id: string,
    nome: string,
    descricao: Option<string>,
    cor: Option<string>,
    feedRate: real,
    pausas: Pausas,
    algoritmo: Option<string>)

  const DEFAULT_MATERIAL: MaterialConfig := MaterialConfig(
    "T1",
    "EPS T1",
    Some("Isopor padrão, densidade baixa"),
    Some("#7AA2F7"),
    600.0,
    Pausas(ShortTier(5.0, 0.0), ShortTier(50.0, 0.3), LongTier(50.0, 0.5)),
    Some("• Distância: D = max(|ΔX|, |ΔY|)\n• D < 5mm: G04 P0.0 (sempre insere, mantém acumulador)\n• 5 ≤ D < 50mm: G04 P0.3 (zera acumulador)\n• D ≥ 50mm: G04 P0.5 (zera acumulador)\n• Remove: Comandos G00 e G04 existentes\n• Tempo: Baseado em 300 mm/min"))

  const T2_MATERIAL: MaterialConfig := MaterialConfig(
    "T2",
    "EPS T2",
    Some("Isopor densidade média"),
    Some("#E0AF68"),
    500.0,
    Pausas(ShortTier(8.0, 0.1), ShortTier(40.0, 0.4), LongTier(40.0, 0.7)),
    Some("• Material T2 com diferentes parâmetros de corte"))

  /**
   * What `getMaterials` finds in the browser: no `window` at all (server-side
   * rendering), a `tap_materials` entry that is missing, empty or not valid
   * JSON, or the list the JSON parses to.
   */
  datatype Storage = NoWindow | Unreadable | Parsed(mats: seq<MaterialConfig>)

  /** `mats.some(m => m.id === id)` */
  predicate HasId(mats: seq<MaterialConfig>, id: string) {
    exists i :: 0 <= i < |mats| && mats[i].id == id
  }

  /** `mats.filter(m => m.id !== id)` */
  function WithoutId(mats: seq<MaterialConfig>, id: string): (r: seq<MaterialConfig>)
    ensures |r| <= |mats|
    ensures !HasId(r, id)
    ensures forall m :: m in r ==> m in mats
    ensures forall m :: m in mats && m.id != id ==> m in r
    ensures !HasId(mats, id) ==> r == mats
  {
    if mats == [] then []
    else if mats[0].id == id then WithoutId(mats[1..], id)
    else [mats[0]] + WithoutId(mats[1..], id)
  }

  /**
   * `getMaterials()`: the stored list with the defaults guaranteed. A list that
   * has both ids is returned as it is; one without T2 is rebuilt as the two
   * defaults followed by every stored entry that is not T1 (so an edited T1 is
   * replaced); one with T2 but no T1 gets the default T1 in front.
   */
  function GetMaterials(storage: Storage): (r: seq<MaterialConfig>)
    ensures HasId(r, DEFAULT_MATERIAL.id) && HasId(r, T2_MATERIAL.id)
    ensures !storage.Parsed? ==> r == [DEFAULT_MATERIAL, T2_MATERIAL]
    ensures (storage.Parsed? && HasId(storage.mats, "T1") && HasId(storage.mats, "T2"))
      ==> r == storage.mats
    ensures (storage.Parsed? && !HasId(storage.mats, "T2"))
      ==> r == [DEFAULT_MATERIAL, T2_MATERIAL] + WithoutId(storage.mats, "T1")
    ensures (storage.Parsed? && !HasId(storage.mats, "T1") && HasId(storage.mats, "T2"))
      ==> r == [DEFAULT_MATERIAL] + storage.mats
  {
    if storage.NoWindow? then
      var r := [DEFAULT_MATERIAL, T2_MATERIAL];
      assert r[0].id == "T1" && r[1].id == "T2";
      r
    else
      var stored := if storage.Parsed? then storage.mats else [];
      var withT1 := if !HasId(stored, DEFAULT_MATERIAL.id) then [DEFAULT_MATERIAL] + stored else stored;
      var r := if !HasId(withT1, T2_MATERIAL.id)
        then [DEFAULT_MATERIAL, T2_MATERIAL] + WithoutId(withT1, DEFAULT_MATERIAL.id)
        else withT1;
      assert HasId(r, "T1") by {
        if !HasId(withT1, T2_MATERIAL.id) { assert r[0].id == "T1"; }
        else if !HasId(stored, DEFAULT_MATERIAL.id) { assert r[0].id == "T1"; }
      }
      assert HasId(r, "T2") by {
        if !HasId(withT1, T2_MATERIAL.id) { assert r[1].id == "T2"; }
      }
      r
  }

  /** The position of the first material with the given id, or `|mats|` when there is none. */
  function FirstWithId(mats: seq<MaterialConfig>, id: string): (i: nat)
    ensures i <= |mats|
    ensures i < |mats| ==> mats[i].id == id
    ensures forall j :: 0 <= j < i ==> mats[j].id != id
  {
    if mats == [] then 0
    else if mats[0].id == id then 0
    else 1 + FirstWithId(mats[1..], id)
  }

  /** `getMaterialById(id)`: the first material with that id, else the default T1. */
  function GetMaterialById(id: string, storage: Storage): (r: MaterialConfig)
    ensures var mats := GetMaterials(storage);
      || (exists i :: 0 <= i < |mats| && mats[i] == r && r.id == id
                        && forall j :: 0 <= j < i ==> mats[j].id != id)
      || (!HasId(mats, id) && r == DEFAULT_MATERIAL)
  {
    var mats := GetMaterials(storage);
    var i := FirstWithId(mats, id);
    if i < |mats| then mats[i] else DEFAULT_MATERIAL
  }

  /** The two built-in ids are always found. */
  lemma BuiltInIdsFound(storage: Storage)
    ensures GetMaterialById("T1", storage).id == "T1"
    ensures GetMaterialById("T2", storage).id == "T2"
  {
    var mats := GetMaterials(storage);
    assert HasId(mats, "T1") && HasId(mats, "T2");
  }
}
