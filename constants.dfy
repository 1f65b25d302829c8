/** The constant tables of the app: the icon names its icon library knows, the default
    categories and the colour palette of the category editor. */
module Constants {
  import opened Text
  import opened Domain

  /** The keys of the icon library. */
  function IconLibrary(): (names: set<string>)
    ensures "Tag" in names && "MoreHorizontal" in names
  {
    {"Utensils", "Car", "Home", "Film", "HeartPulse", "ShoppingBag", "Banknote", "MoreHorizontal",
     "Crown", "Tag", "Gift", "Globe", "Briefcase", "GraduationCap", "Gamepad2", "Music", "Plane", "Star",
     "Smile", "Wrench", "Zap", "Book", "Coffee", "Anchor", "Sun", "Moon", "Umbrella", "Dog", "Cat",
     "Smartphone", "Monitor", "Headphones", "Scissors", "Key", "Sparkles"}
  }

  function Default(key: string, caption: string, icon: string, tone: string, bg: string,
                   hex: string, kind: Kind): CategoryEntry
  {
    CategoryEntry(key, Category(StrId(key), caption, Some(icon), None,
      "text-" + tone + "-400", bg, "border-" + tone + "-500/20", "bg-" + tone + "-500", hex, kind))
  }

  /** The default categories, in declaration order; `food` (the form's default) and `other`
      (the display fallback) are among them. */
  function DefaultCategories(): (t: CategoryTable)
    ensures |t| == 10
    ensures t[3].key == "food" && t[9].key == "other"
  {
    [ Default("income", "Salário", "Banknote", "emerald", "bg-emerald-500/10", "#10b981", Income),
      Default("extra_income", "Renda Extra", "Sparkles", "emerald", "bg-emerald-500/10", "#10b981", Income),
      Default("kingdom", "Reino", "Crown", "yellow", "bg-yellow-500/10", "#eab308", Expense),
      Default("food", "Alimentação", "Utensils", "orange", "bg-orange-500/10", "#f97316", Expense),
      Default("transport", "Transporte", "Car", "blue", "bg-blue-500/10", "#3b82f6", Expense),
      Default("home", "Casa", "Home", "indigo", "bg-indigo-500/10", "#6366f1", Expense),
      Default("entertainment", "Lazer", "Film", "pink", "bg-pink-500/10", "#ec4899", Expense),
      Default("health", "Saúde", "HeartPulse", "red", "bg-zinc-500/10", "#ef4444", Expense),
      Default("shopping", "Compras", "ShoppingBag", "purple", "bg-purple-500/10", "#a855f7", Expense),
      Default("other", "Outros", "MoreHorizontal", "zinc", "bg-zinc-500/10", "#71717a", Expense) ]
  }

  function Swatch(name: string, hex: string): ColorOption {
    ColorOption(name, hex, "text-" + name + "-400", "bg-" + name + "-500/10",
      "border-" + name + "-500/20", "bg-" + name + "-500")
  }

  /** The colour palette: non-empty, and no two swatches share a hex value. */
  function ColorPalette(): (p: seq<ColorOption>)
    ensures |p| == 10
    ensures forall i, j :: 0 <= i < j < |p| ==> p[i].hex != p[j].hex
  {
    [ Swatch("cyan", "#06b6d4"), Swatch("lime", "#84cc16"), Swatch("fuchsia", "#d946ef"),
      Swatch("yellow", "#eab308"), Swatch("rose", "#f43f5e"), Swatch("indigo", "#6366f1"),
      Swatch("orange", "#f97316"), Swatch("blue", "#3b82f6"), Swatch("red", "#ef4444"),
      Swatch("purple", "#a855f7") ]
  }

  /** Swatch `i` is the first one with that hex. */
  predicate FirstAt(p: seq<ColorOption>, hex: string, i: int) {
    0 <= i < |p| && p[i].hex == hex && forall j :: 0 <= j < i ==> p[j].hex != hex
  }

  /** `palette.find(c => c.hex === hex)`: the first swatch with that hex, if any. */
  function FirstWithHex(p: seq<ColorOption>, hex: string): (r: Option<ColorOption>)
    ensures r.Some? <==> exists i :: 0 <= i < |p| && p[i].hex == hex
    ensures r.Some? ==> exists i :: FirstAt(p, hex, i) && p[i] == r.value
  {
    if p == [] then None
    else if p[0].hex == hex then
      assert FirstAt(p, hex, 0);
      Some(p[0])
    else
      var r := FirstWithHex(p[1..], hex);
      if r.Some? then
        var i :| FirstAt(p[1..], hex, i) && p[1..][i] == r.value;
        assert FirstAt(p, hex, i + 1);
        r
      else
        assert forall i :: 1 <= i < |p| ==> p[i] == p[1..][i - 1];
        r
  }

  /** `COLOR_PALETTE.find(c => c.hex === hex) || COLOR_PALETTE[0]`: the editor's swatch for
      a category colour. */
  function FindByHex(hex: string): (c: ColorOption)
    ensures c in ColorPalette()
  {
    match FirstWithHex(ColorPalette(), hex)
    case Some(c) => c
    case None => ColorPalette()[0]
  }

  /** Since no two swatches share a hex value, looking up a swatch's hex finds that swatch. */
  lemma FindByHexUnique(i: nat)
    requires i < |ColorPalette()|
    ensures FindByHex(ColorPalette()[i].hex) == ColorPalette()[i]
  {
    var p := ColorPalette();
    var r := FirstWithHex(p, p[i].hex);
    var k :| FirstAt(p, p[i].hex, k) && p[k] == r.value;
    assert k == i;
  }

  /** A hex value that no swatch has falls back to the first swatch. */
  lemma FindByHexFallback(hex: string)
    requires forall i :: 0 <= i < |ColorPalette()| ==> ColorPalette()[i].hex != hex
    ensures FindByHex(hex) == ColorPalette()[0]
  {
  }

  /** The form's default category `food` and the display fallback `other` are keys of the
      default table. */
  lemma FoodAndOtherAreDefaults()
    ensures "food" in Keys(DefaultCategories()) && "other" in Keys(DefaultCategories())
    ensures Lookup(DefaultCategories(), "food").Some? && Lookup(DefaultCategories(), "other").Some?
  {
    var t := DefaultCategories();
    assert Keys(t)[3] == "food" && Keys(t)[9] == "other";
  }

  /** Each default category's id is its key. */
  lemma DefaultIdsAreKeys()
    ensures forall i :: 0 <= i < |DefaultCategories()| ==>
      DefaultCategories()[i].cat.id == StrId(DefaultCategories()[i].key)
  {
  }

  /** Exactly `income` and `extra_income` are income categories. */
  lemma DefaultIncomeKinds()
    ensures forall i :: 0 <= i < |DefaultCategories()| ==>
      (DefaultCategories()[i].cat.kind == Income <==>
       DefaultCategories()[i].key == "income" || DefaultCategories()[i].key == "extra_income")
  {
  }

  /** The keys of the default table, in order. */
  const DefaultKeys: seq<string> := ["income", "extra_income", "kingdom", "food", "transport",
    "home", "entertainment", "health", "shopping", "other"]

  lemma DefaultKeysAre()
    ensures Keys(DefaultCategories()) == DefaultKeys
  {
  }

  /** No two default categories share a key. */
  lemma DefaultKeysDistinct()
    ensures DistinctKeys(DefaultCategories())
  {
    var ks := Keys(DefaultCategories());
    DefaultKeysAre();
    assert forall i, j :: 0 <= i < j < |ks| ==> ks[i] != ks[j];
  }

  /** Every default category names its icon under `iconName` (not `icon_name`) and has a
      non-empty label. */
  lemma DefaultIconsUnderIconName()
    ensures forall i :: 0 <= i < |DefaultCategories()| ==>
      var c := DefaultCategories()[i].cat;
      c.iconName.Some? && c.icon_name.None? && c.labelText != ""
  {
  }

  /** Every default category's icon is a key of the icon library. */
  lemma DefaultIconsInLibrary()
    ensures forall i :: 0 <= i < |DefaultCategories()| ==>
      DefaultCategories()[i].cat.iconName.Some?
      && DefaultCategories()[i].cat.iconName.value in IconLibrary()
  {
  }
}
