/** components/Inventory.tsx: the product form's save rule (what is
    rejected, which defaults are filled in, when the id is reused and when
    a fresh one is minted), the form reset, and the confirmed delete. The
    form holds `Partial<Product>`: every field may be missing. */
module Inventory {
  import opened Wrappers
  import opened PosTypes
  import Db

  /** A numeric form field: `parseFloat` of the input, which may be NaN. */
  datatype FormNumber = Num(value: int) | NaN

  /** `formData`. */
  datatype ProductForm = ProductForm(
    name: Option<string>,
    price: Option<FormNumber>,
    cost: Option<FormNumber>,
    category: Option<string>,
    color: Option<string>)

  /** The editor's state: `isEditing` (the id being edited, or null),
      `formData` and `showForm`. */
  datatype Editor = Editor(editing: Option<string>, form: ProductForm, showForm: bool)

  const DefaultCategory: string := "通用"
  const DefaultColor: string := "#3b82f6"

  /** `initialForm`. */
  const InitialForm: ProductForm :=
    ProductForm(Some(""), Some(Num(0)), Some(Num(0)), Some(DefaultCategory), Some(DefaultColor))

  /** JavaScript truthiness of an optional string: present and non-empty. */
  predicate TextTruthy(o: Option<string>)
  {
    o.Some? && o.value != ""
  }

  /** JavaScript truthiness of an optional number: present, not NaN, not
      zero. */
  predicate NumberTruthy(o: Option<FormNumber>)
  {
    o.Some? && o.value.Num? && o.value.value != 0
  }

  /** The "new product" button: an empty form, nothing being edited. */
  function StartNew(): (r: Editor)
    ensures r.editing.None? && r.form == InitialForm && r.showForm
  {
    Editor(None, InitialForm, true)
  }

  /** `handleEdit`: load the product into the form and remember its id. */
  function HandleEdit(p: Product): (r: Editor)
    ensures r.editing == Some(p.id) && r.showForm
    ensures r.form.name == Some(p.name) && r.form.price == Some(Num(p.price)) && r.form.cost == Some(Num(p.cost))
    ensures r.form.category == Some(p.category) && r.form.color == p.color
  {
    Editor(Some(p.id), ProductForm(Some(p.name), Some(Num(p.price)), Some(Num(p.cost)), Some(p.category), p.color), true)
  }

  /** Outcome of `handleSave`: editor and store afterwards, and the product
      written, if any. */
  datatype SaveResult = SaveResult(editor: Editor, store: Db.Store, saved: Option<Product>)

  /** `handleSave`. A missing or empty name, or a missing, zero or NaN
      price, rejects the save and changes nothing; a negative price or cost
      is accepted. Otherwise the product gets the edited id when that id is
      truthy and `freshId` (standing for `crypto.randomUUID()`) when not;
      a falsy cost becomes 0, a falsy category '通用' and a falsy colour
      '#3b82f6'. It is saved through `saveProduct`, and the editor is
      closed with the initial form and nothing being edited. */
  function HandleSave(ed: Editor, store: Db.Store, freshId: string): (r: SaveResult)
    ensures r.saved.None? <==> !TextTruthy(ed.form.name) || !NumberTruthy(ed.form.price)
    ensures r.saved.None? ==> r.editor == ed && r.store == store
    ensures r.saved.Some? ==>
      var p := r.saved.value;
      && p.id == (if TextTruthy(ed.editing) then ed.editing.value else freshId)
      && ed.form.name == Some(p.name) && p.name != ""
      && ed.form.price == Some(Num(p.price)) && p.price != 0
      && p.cost == (if NumberTruthy(ed.form.cost) then ed.form.cost.value.value else 0)
      && p.category == (if TextTruthy(ed.form.category) then ed.form.category.value else DefaultCategory)
      && p.color == Some(if TextTruthy(ed.form.color) then ed.form.color.value else DefaultColor)
      && r.store == Db.SaveProduct(store, p)
      && r.editor == Editor(None, InitialForm, false)
  {
    var f := ed.form;
    if !TextTruthy(f.name) || !NumberTruthy(f.price) then SaveResult(ed, store, None)
    else
      var p := Product(
        if TextTruthy(ed.editing) then ed.editing.value else freshId,
        f.name.value,
        f.price.value.value,
        if NumberTruthy(f.cost) then f.cost.value.value else 0,
        if TextTruthy(f.category) then f.category.value else DefaultCategory,
        Some(if TextTruthy(f.color) then f.color.value else DefaultColor));
      SaveResult(Editor(None, InitialForm, false), Db.SaveProduct(store, p), Some(p))
  }

  /** The initial form is never saved as it stands: its price is 0. */
  lemma InitialFormRejected(store: Db.Store, freshId: string)
    ensures HandleSave(StartNew(), store, freshId).saved.None?
    ensures HandleSave(StartNew(), store, freshId).store == store
  {
  }

  /** Opening a stored product and saving it without changes leaves the
      catalog exactly as it was, provided the product has an id, a name, a
      non-zero price, a category and a colour, and catalog ids are
      unique. */
  lemma EditThenSaveIsIdentity(store: Db.Store, p: Product, freshId: string)
    requires Db.UniqueIds(Db.GetProducts(store).products)
    requires p in Db.GetProducts(store).products
    requires p.id != "" && p.name != "" && p.price != 0 && p.category != ""
    requires p.color.Some? && p.color.value != ""
    ensures HandleSave(HandleEdit(p), store, freshId).saved == Some(p)
    ensures Db.GetProducts(HandleSave(HandleEdit(p), store, freshId).store).products == Db.GetProducts(store).products
  {
    var r := HandleSave(HandleEdit(p), store, freshId);
    assert r.saved == Some(p);
    Db.UpsertSameIsIdentity(Db.GetProducts(store).products, p);
  }

  /** Saving a new product under an id not yet in the catalog appends it
      at the end and keeps ids unique. */
  lemma NewProductAppended(ed: Editor, store: Db.Store, freshId: string)
    requires !TextTruthy(ed.editing)
    requires TextTruthy(ed.form.name) && NumberTruthy(ed.form.price)
    requires freshId !in ProductIds(Db.GetProducts(store).products)
    requires Db.UniqueIds(Db.GetProducts(store).products)
    ensures var r := HandleSave(ed, store, freshId);
            && r.saved.Some? && r.saved.value.id == freshId
            && Db.GetProducts(r.store).products == Db.GetProducts(store).products + [r.saved.value]
            && Db.UniqueIds(Db.GetProducts(r.store).products)
  {
    var r := HandleSave(ed, store, freshId);
    Db.UpsertPreservesUniqueIds(Db.GetProducts(store).products, r.saved.value);
  }

  /** `handleDelete`: the store is reached only when the user confirmed. */
  function HandleDelete(store: Db.Store, id: string, confirmed: bool): (r: Db.Store)
    ensures !confirmed ==> r == store
    ensures confirmed ==> r == Db.DeleteProduct(store, id)
  {
    if confirmed then Db.DeleteProduct(store, id) else store
  }
}
