// The classification taxonomy: categories, each with an ordered list of
// subcategories, each with its keywords, plus the metadata that fixes the
// confidence threshold and the fallback category.  The JSON object is
// modelled as sequences so that the iteration order of `Object.entries`
// (insertion order for these string keys) is kept.

module Taxonomy {
  import opened Text

  datatype Subcategory = Subcategory(name: string, keywords: seq<string>)

  datatype Category = Category(name: string, subcategories: seq<Subcategory>)

  datatype Metadata = Metadata(
    confidenceThreshold: real,
    fallbackCategory: string,
    totalCategories: nat,
    totalSubcategories: nat)

  datatype Taxonomy = Taxonomy(version: string, categories: seq<Category>, metadata: Metadata)

  /** One subcategory together with the name of its category, in the order
      the classifier visits them. */
  datatype Leaf = Leaf(category: string, subcategory: string, keywords: seq<string>)

  /** Object keys are unique: no two categories share a name, and no two
      subcategories of one category do. */
  predicate WellFormed(t: Taxonomy) {
    && (forall i, j :: 0 <= i < j < |t.categories| ==> t.categories[i].name != t.categories[j].name)
    && (forall c :: c in t.categories ==> UniqueSubcategories(c))
  }

  predicate UniqueSubcategories(c: Category) {
    forall i, j :: 0 <= i < j < |c.subcategories| ==> c.subcategories[i].name != c.subcategories[j].name
  }

  /** `record[name]` over an object's entries in insertion order: the first
      entry whose key, read by `key`, is the name. */
  function FindByName<T(==)>(xs: seq<T>, key: T -> string, name: string): (r: Option<T>)
    ensures r.Some? <==> exists i :: 0 <= i < |xs| && key(xs[i]) == name
    ensures r.Some? ==> r.value in xs && key(r.value) == name
  {
    if xs == [] then None
    else if key(xs[0]) == name then Some(xs[0])
    else FindByName(xs[1..], key, name)
  }

  function CategoryName(c: Category): string { c.name }

  function SubcategoryName(s: Subcategory): string { s.name }

  /** `categories[category]?.subcategories?.[subcategory]?.keywords`; a
      missing subcategory name (a path without " > ") finds nothing. */
  function LookupKeywords(t: Taxonomy, category: string, subcategory: Option<string>): (r: Option<seq<string>>)
    ensures r.Some? ==> exists c, s :: (c in t.categories && s in c.subcategories
      && c.name == category && subcategory == Some(s.name) && r.value == s.keywords)
  {
    match subcategory
    case None => None
    case Some(sub) =>
      match FindByName(t.categories, CategoryName, category)
      case None => None
      case Some(c) =>
        match FindByName(c.subcategories, SubcategoryName, sub)
        case None => None
        case Some(s) => Some(s.keywords)
  }

  /** The subcategories of one category, as leaves. */
  function CategoryLeaves(c: Category): (r: seq<Leaf>)
    ensures |r| == |c.subcategories|
    ensures forall j :: 0 <= j < |r| ==>
      r[j] == Leaf(c.name, c.subcategories[j].name, c.subcategories[j].keywords)
  {
    seq(|c.subcategories|, j requires 0 <= j < |c.subcategories| =>
      Leaf(c.name, c.subcategories[j].name, c.subcategories[j].keywords))
  }

  /** Every subcategory of every category, category by category, in order. */
  function Leaves(cats: seq<Category>): seq<Leaf>
  {
    if cats == [] then [] else Leaves(cats[..|cats| - 1]) + CategoryLeaves(cats[|cats| - 1])
  }

  /** A leaf comes from a category of the list and one of its subcategories. */
  lemma {:induction false} LeafOrigin(cats: seq<Category>, l: Leaf)
    requires l in Leaves(cats)
    ensures exists c, s :: (c in cats && s in c.subcategories
      && l == Leaf(c.name, s.name, s.keywords))
  {
    var n := |cats|;
    if l in Leaves(cats[..n - 1]) {
      LeafOrigin(cats[..n - 1], l);
      var c, s :| c in cats[..n - 1] && s in c.subcategories && l == Leaf(c.name, s.name, s.keywords);
      assert c in cats;
    } else {
      var r := CategoryLeaves(cats[n - 1]);
      var j :| 0 <= j < |r| && r[j] == l;
      assert cats[n - 1].subcategories[j] in cats[n - 1].subcategories;
    }
  }

  /** With unique keys, every entry is found by its own key. */
  lemma {:induction false} FindOwn<T>(xs: seq<T>, key: T -> string, x: T)
    requires forall i, j :: 0 <= i < j < |xs| ==> key(xs[i]) != key(xs[j])
    requires x in xs
    ensures FindByName(xs, key, key(x)) == Some(x)
  {
    if xs[0] != x {
      assert x in xs[1..];
      var j :| 0 <= j < |xs| && xs[j] == x;
      assert key(xs[0]) != key(xs[j]);
      FindOwn(xs[1..], key, x);
    }
  }

  /** In a well-formed taxonomy, looking a leaf up by its two names gives
      back its own keywords. */
  lemma LookupLeaf(t: Taxonomy, l: Leaf)
    requires WellFormed(t)
    requires l in Leaves(t.categories)
    ensures LookupKeywords(t, l.category, Some(l.subcategory)) == Some(l.keywords)
  {
    LeafOrigin(t.categories, l);
    var c, s :| c in t.categories && s in c.subcategories && l == Leaf(c.name, s.name, s.keywords);
    LookupSubcategory(t, c, s);
  }

  /** The same, for a category and one of its subcategories. */
  lemma LookupSubcategory(t: Taxonomy, c: Category, s: Subcategory)
    requires WellFormed(t)
    requires c in t.categories && s in c.subcategories
    ensures LookupKeywords(t, c.name, Some(s.name)) == Some(s.keywords)
  {
    assert forall i, j :: 0 <= i < j < |t.categories| ==> CategoryName(t.categories[i]) != CategoryName(t.categories[j]);
    FindOwn(t.categories, CategoryName, c);
    assert UniqueSubcategories(c);
    assert forall i, j :: 0 <= i < j < |c.subcategories| ==> SubcategoryName(c.subcategories[i]) != SubcategoryName(c.subcategories[j]);
    FindOwn(c.subcategories, SubcategoryName, s);
  }

  // ---------------------------------------------------------------------
  // The mock taxonomy of __tests__/query-classification.test.ts
  // ---------------------------------------------------------------------

  function MockTaxonomy(): Taxonomy {
    Taxonomy(
      "1.0",
      [ Category("Pensiones", [
          Subcategory("AFP", ["afp", "administradora de fondos", "fondos de pensiones",
                              "cotizaci\U{F3}n", "cuenta individual"]),
          Subcategory("Pensi\U{F3}n B\U{E1}sica Universal", ["pensi\U{F3}n b\U{E1}sica", "universal", "pilar solidario"])]),
        Category("Salud", [
          Subcategory("Isapres", ["isapre", "seguro privado", "plan de salud", "cotizaci\U{F3}n salud"]),
          Subcategory("Fonasa", ["fonasa", "seguro p\U{FA}blico", "sistema p\U{FA}blico"]),
          Subcategory("Listas de Espera", ["lista de espera", "cirug\U{ED}a", "operaci\U{F3}n",
                                           "especialista", "demora atenci\U{F3}n"])]),
        Category("Educaci\U{F3}n", [
          Subcategory("Educaci\U{F3}n Superior", ["universidad", "gratuidad", "cae", "cr\U{E9}dito",
                                                  "educaci\U{F3}n superior"])]),
        Category("Seguridad", [
          Subcategory("Narcotr\U{E1}fico", ["narcotr\U{E1}fico", "droga", "tr\U{E1}fico", "crimen organizado"])])
      ],
      Metadata(0.25, "Institucionalidad", 4, 6))
  }

  /** The mock is well formed and has the four categories its metadata
      announces.  (It lists seven subcategories, while its metadata says
      six; nothing in the classifier reads either count.) */
  lemma MockWellFormed()
    ensures WellFormed(MockTaxonomy())
    ensures |MockTaxonomy().categories| == MockTaxonomy().metadata.totalCategories
    ensures |Leaves(MockTaxonomy().categories)| == 7
  {
    var cs := MockTaxonomy().categories;
    MockCategoryNames(cs);
    forall c | c in cs ensures UniqueSubcategories(c) {
      assert c == cs[0] || c == cs[1] || c == cs[2] || c == cs[3];
    }
    MockLeafCount(cs);
  }

  lemma MockCategoryNames(cs: seq<Category>)
    requires cs == MockTaxonomy().categories
    ensures forall i, j :: 0 <= i < j < |cs| ==> cs[i].name != cs[j].name
  {
    var p, e, s := cs[0].name, cs[2].name, cs[3].name;
    assert p[0] == 'P' && e[0] == 'E' && s[0] == 'S';
    assert |cs[1].name| == 5 && |s| == 9;
    forall i, j | 0 <= i < j < |cs| ensures cs[i].name != cs[j].name {
      if i == 0 && j == 2 {
        assert p[0] != e[0];
      } else if i == 0 && j == 3 {
        assert p[0] != s[0];
      } else if i == 2 && j == 3 {
        assert e[0] != s[0];
      }
    }
  }

  lemma MockLeafCount(cs: seq<Category>)
    requires cs == MockTaxonomy().categories
    ensures |Leaves(cs)| == 7
  {
    assert cs[..1][..0] == [];
    assert cs[..2][..1] == cs[..1];
    assert cs[..3][..2] == cs[..2];
    assert cs[..4][..3] == cs[..3];
    assert cs[..4] == cs;
    assert |Leaves(cs[..1])| == 2;
    assert |Leaves(cs[..2])| == 5;
    assert |Leaves(cs[..3])| == 6;
    assert Leaves(cs) == Leaves(cs[..3]) + CategoryLeaves(cs[3]);
  }
}
