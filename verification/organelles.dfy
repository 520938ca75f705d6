/** The fixed catalog of plant-cell organelles (data/organelles.ts) and the
    facts about it that the scene relies on. */
module Organelles {
  import opened Types

  const CellWallId: string := "cell_wall"
  const CellMembraneId: string := "cell_membrane"
  const ChloroplastId: string := "chloroplast"
  const MitochondriaId: string := "mitochondria"
  const VacuoleId: string := "vacuole"
  const NucleusId: string := "nucleus"

  /** The wall and the membrane enclose every other structure: they are drawn
      from the inside, take no hover and no idle motion. */
  predicate IsEnclosingId(id: string) {
    id == CellWallId || id == CellMembraneId
  }

  /** The catalog, in source order. */
  const Catalog: seq<Organelle> := [
    Organelle(
      "cell_wall", "细胞壁 (Cell Wall)", "植物细胞的“铠甲”",
      "【结构特征】\n位于植物细胞最外层，主要成分是纤维素和果胶。质地坚韧，全透性。",
      "【核心功能】\n支持和保护作用，维持植物细胞的长方形形态。",
      "bg-lime-700", "#4d7c0f", Placement("0%", "0%", "100%", "100%"),
      Vec3(0.0, 0.0, 0.0), Vec3(8.0, 10.0, 3.0), None, RoundedBox, "🧱",
      "https://images.unsplash.com/photo-1518117621406-25f02bc0f252?q=80&w=800&auto=format&fit=crop"),
    Organelle(
      "cell_membrane", "细胞膜 (Cell Membrane)", "细胞的边界与大门",
      "【结构特征】\n紧贴细胞壁内侧的一层薄膜，由磷脂双分子层和蛋白质构成。",
      "【核心功能】\n控制物质进出，进行细胞间信息交流。",
      "bg-lime-400", "#a3e635", Placement("2%", "2%", "96%", "96%"),
      Vec3(0.0, 0.0, 0.0), Vec3(7.6, 9.6, 2.6), None, RoundedBox, "🛡️",
      "https://plus.unsplash.com/premium_photo-1675718765955-a2221b6d0800?q=80&w=800&auto=format&fit=crop"),
    Organelle(
      "vacuole", "中央大液泡 (Central Vacuole)", "巨大的调节中心",
      "【结构特征】\n成熟植物细胞中最大的细胞器，几乎占据细胞体积的90%。充满细胞液。",
      "【核心功能】\n通过渗透压支撑细胞（膨压），储存水、营养和代谢废物。",
      "bg-blue-300", "#bfdbfe", Placement("20%", "20%", "60%", "60%"),
      Vec3(0.0, -1.0, 0.0), Vec3(6.0, 6.5, 1.8), None, RoundedBox, "💧",
      "https://images.unsplash.com/photo-1616866657876-b63d76e33d26?q=80&w=800&auto=format&fit=crop"),
    Organelle(
      "nucleus", "细胞核 (Nucleus)", "指挥中心",
      "【结构特征】\n双层核膜、核仁、染色质。通常被大液泡挤压到细胞边缘。",
      "【核心功能】\n遗传信息库，细胞代谢和遗传的控制中心。",
      "bg-purple-500", "#a855f7", Placement("10%", "60%", "20%", "20%"),
      Vec3(1.8, 3.2, 0.5), Vec3(1.3, 1.3, 1.3), None, Sphere, "🧬",
      "https://images.unsplash.com/photo-1559757175-5700dde675bc?q=80&w=800&auto=format&fit=crop"),
    Organelle(
      "er_rough", "粗面内质网 (Rough ER)", "蛋白合成车间",
      "【结构特征】\n表面附有核糖体，与核膜外层相连。",
      "【核心功能】\n合成和加工分泌蛋白。",
      "bg-pink-500", "#ec4899", Placement("15%", "50%", "15%", "10%"),
      Vec3(0.5, 3.0, 0.5), Vec3(0.8, 0.8, 0.8), Some(Vec3(0.0, 0.0, 0.5)), TorusKnot, "🏭",
      "https://images.unsplash.com/photo-1530026405186-ed1f139313f8?q=80&w=800&auto=format&fit=crop"),
    Organelle(
      "er_smooth", "滑面内质网 (Smooth ER)", "脂质合成车间",
      "【结构特征】\n无核糖体附着，管状网。",
      "【核心功能】\n合成脂质，解毒。",
      "bg-pink-300", "#f9a8d4", Placement("20%", "45%", "10%", "10%"),
      Vec3(-0.2, 2.5, 0.5), Vec3(0.5, 0.5, 0.5), Some(Vec3(0.0, 0.0, 0.0)), TorusKnot, "🧼",
      "https://plus.unsplash.com/premium_photo-1664303102456-43d9326f5556?q=80&w=800&auto=format&fit=crop"),
    Organelle(
      "chloroplast", "叶绿体 (Chloroplast)", "光合作用工厂",
      "【结构特征】\n扁平椭球形，双层膜，含基粒和叶绿素。数量较多。",
      "【核心功能】\n光合作用：将光能转化为化学能。",
      "bg-green-600", "#15803d", Placement("60%", "10%", "15%", "15%"),
      Vec3(-2.2, -3.0, 0.8), Vec3(1.4, 1.4, 0.7), Some(Vec3(0.5, 0.5, 0.0)), OvalSphere, "🌿",
      "https://images.unsplash.com/photo-1550989460-0adf9ea622e2?q=80&w=800&auto=format&fit=crop"),
    Organelle(
      "mitochondria", "线粒体 (Mitochondria)", "动力工厂",
      "【结构特征】\n短棒状/胶囊状，双层膜，内膜折叠成嵴。",
      "【核心功能】\n有氧呼吸，产生ATP。",
      "bg-red-500", "#ef4444", Placement("80%", "70%", "10%", "10%"),
      Vec3(2.5, -3.5, 0.8), Vec3(0.6, 0.6, 0.6), Some(Vec3(0.0, 0.0, -0.5)), Capsule, "⚡",
      "https://images.unsplash.com/photo-1595180373418-4c28f6453051?q=80&w=800&auto=format&fit=crop"),
    Organelle(
      "golgi", "高尔基体 (Golgi)", "分泌中心",
      "【结构特征】\n扁平囊泡堆叠。",
      "【核心功能】\n蛋白质加工、包装和运输。",
      "bg-orange-400", "#fb923c", Placement("15%", "15%", "12%", "12%"),
      Vec3(-2.2, 3.2, 0.5), Vec3(0.9, 0.9, 0.9), Some(Vec3(0.0, 0.0, 0.2)), Box, "📦",
      "https://plus.unsplash.com/premium_photo-1673468507851-9e73551d7c3d?q=80&w=800&auto=format&fit=crop")
  ]

  /** `catalog.find(o => o.id === id)`: the first record carrying `id`, if any. */
  function Find(catalog: seq<Organelle>, id: string): (r: Option<Organelle>)
    ensures r.None? <==> forall i :: 0 <= i < |catalog| ==> catalog[i].id != id
    ensures r.Some? ==> exists i :: 0 <= i < |catalog| && catalog[i] == r.value
                                   && forall j :: 0 <= j < i ==> catalog[j].id != id
    ensures r.Some? ==> r.value.id == id
  {
    if catalog == [] then None
    else if catalog[0].id == id then Some(catalog[0])
    else
      var r := Find(catalog[1..], id);
      assert forall i :: 1 <= i < |catalog| ==> catalog[i] == catalog[1..][i - 1];
      r
  }

  /** With distinct ids, looking up the id of record `i` yields record `i`. */
  lemma FindAtIndex(catalog: seq<Organelle>, i: int)
    requires 0 <= i < |catalog|
    requires forall a, b :: 0 <= a < b < |catalog| ==> catalog[a].id != catalog[b].id
    ensures Find(catalog, catalog[i].id) == Some(catalog[i])
  {
    var r := Find(catalog, catalog[i].id);
    var k :| 0 <= k < |catalog| && catalog[k] == r.value
             && forall j :: 0 <= j < k ==> catalog[j].id != catalog[i].id;
    if k < i {
      assert false;
    } else if i < k {
      assert false;
    }
  }

  /** No two catalog records share an id. */
  lemma CatalogIdsUnique()
    ensures |Catalog| == 9
    ensures forall a, b :: 0 <= a < b < |Catalog| ==> Catalog[a].id != Catalog[b].id
  {
  }

  /** Exactly the first two records are enclosing, they are the wall and the
      membrane, and both sit at the origin. */
  lemma EnclosingRecords()
    ensures forall i :: 0 <= i < |Catalog| ==> (IsEnclosingId(Catalog[i].id) <==> i < 2)
    ensures Catalog[0].id == CellWallId && Catalog[1].id == CellMembraneId
    ensures forall i :: 0 <= i < |Catalog| && IsEnclosingId(Catalog[i].id) ==> Catalog[i].position3d == Origin
  {
  }

  /** The lookups the scene performs with a non-null assertion succeed. */
  lemma ChloroplastAndMitochondriaPresent()
    ensures Find(Catalog, ChloroplastId) == Some(Catalog[6])
    ensures Find(Catalog, MitochondriaId) == Some(Catalog[7])
  {
    CatalogIdsUnique();
    FindAtIndex(Catalog, 6);
    FindAtIndex(Catalog, 7);
  }

  /** The mitochondria record: its tagline and its position. */
  lemma MitochondriaRecord()
    ensures Find(Catalog, MitochondriaId).Some?
    ensures Find(Catalog, MitochondriaId).value.shortDescription == "动力工厂"
    ensures Find(Catalog, MitochondriaId).value.position3d == Vec3(2.5, -3.5, 0.8)
  {
    ChloroplastAndMitochondriaPresent();
  }

  /** Only the wall, the membrane and the vacuole are rounded boxes. */
  lemma RoundedBoxRecords()
    ensures forall i :: 0 <= i < |Catalog| ==>
      (Catalog[i].shapeType == RoundedBox <==> Catalog[i].id in {CellWallId, CellMembraneId, VacuoleId})
  {
  }
}
