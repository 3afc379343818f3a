/**
 * The inventory handlers: the management page, the classification page, and the
 * add-classification and add-vehicle forms with their submissions.
 *
 * The navigation markup is given as `nav`. What building the classification select
 * list gives is given as `classificationList`: the handlers pass it a scalar or nothing
 * instead of rows, so as written it throws (`Html.ClassificationListOfBodyFieldThrows`).
 */
module InvController {
  import opened Wrappers
  import opened Js
  import opened Http
  import opened Html
  import opened Stores

  const RegisterFailedNotice := "Sorry, the registration failed."
  const VehicleFailedNotice := "Sorry, adding the vehicle failed."
  const NoImage := "/images/vehicles/no-image.png"
  const NoImageThumbnail := "/images/vehicles/no-image-tn.png"

  /** The management page. */
  function ManagementView(nav: string): View
  {
    View("inventory/management", map["title" := Str("Inventory Management"), "nav" := Str(nav), "errors" := Null])
  }

  /** `buildManagement`. */
  method BuildManagement(res: Response, nav: string)
    modifies res`rendered
    ensures res.rendered == Some(ManagementView(nav))
  {
    var view := ManagementView(nav);
    res.Render(view.name, view.data);
  }

  // ----- the classification page -----

  /** The page title: the first vehicle's classification name, or "Vehicle" when the
      classification has no vehicles, followed by " vehicles". */
  function ClassificationTitle(rows: seq<InventoryRow>): (title: string)
    ensures rows == [] ==> title == "Vehicle vehicles"
    ensures rows != [] ==> title == rows[0].classification_name + " vehicles"
  {
    (if |rows| > 0 then rows[0].classification_name else "Vehicle") + " vehicles"
  }

  /** The classification page. */
  function ClassificationView(rows: seq<InventoryRow>, nav: string, formatNumber: string -> string): View
  {
    View("./inventory/classification", map[
      "title" := Str(ClassificationTitle(rows)), "nav" := Str(nav),
      "grid" := Str(Grid(rows, formatNumber)), "errors" := Null])
  }

  /** Equal texts with a common suffix have equal fronts. */
  lemma SuffixCancels(a: string, b: string, suffix: string)
    requires a + suffix == b + suffix
    ensures a == b
  {
    assert a == (a + suffix)[..|a|];
    assert b == (b + suffix)[..|b|];
  }

  /** The fallback title appears only for a classification without vehicles, provided
      no classification is itself named "Vehicle"; `Html.GridEmptyIffNotice` gives the
      same for the grid's no-vehicles notice. */
  lemma FallbackTitleOnlyWhenEmpty(rows: seq<InventoryRow>)
    requires forall r :: r in rows ==> r.classification_name != "Vehicle"
    ensures ClassificationTitle(rows) == "Vehicle" + " vehicles" <==> rows == []
  {
    if rows != [] && ClassificationTitle(rows) == "Vehicle" + " vehicles" {
      SuffixCancels(rows[0].classification_name, "Vehicle", " vehicles");
    }
  }

  /** `buildByClassificationId`: read the classification's vehicles (the identifier is
      the URL parameter as given) and render their grid under the title. A failing read
      throws and nothing is rendered. */
  method BuildByClassificationId(req: Request, res: Response, inventory: InventoryStore, nav: string,
                                 formatNumber: string -> string)
    returns (thrown: Option<JsError>)
    modifies res`rendered, inventory`queries
    ensures var id := Field(req.params, "classificationId");
            inventory.queries == old(inventory.queries) + [SelectInventoryByClassification(id)]
    ensures var rows := inventory.rowsAnswer(Field(req.params, "classificationId"));
            && (rows.Err? ==> thrown == Some(rows.error) && res.rendered == old(res.rendered))
            && (rows.Ok? ==> thrown == None && res.rendered == Some(ClassificationView(rows.value, nav, formatNumber)))
  {
    var classificationId := Field(req.params, "classificationId");
    var data := inventory.GetInventoryByClassificationId(classificationId);
    if data.Err? {
      return Some(data.error);
    }
    var grid := BuildClassificationGrid(data.value, formatNumber);
    var className := if |data.value| > 0 then data.value[0].classification_name else "Vehicle";
    res.Render("./inventory/classification", map[
      "title" := Str(className + " vehicles"), "nav" := Str(nav), "grid" := Str(grid), "errors" := Null]);
    return None;
  }

  // ----- adding a classification -----

  /** The add-classification form with the given name in its field. */
  function AddClassificationForm(nav: string, name: Value): View
  {
    View("inventory/add-classification", map[
      "title" := Str("Add New Classification"), "nav" := Str(nav), "errors" := Null, "classification_name" := name])
  }

  /** `buildAddClassification`: the form starts with an empty name and no errors. */
  method BuildAddClassification(res: Response, nav: string)
    modifies res`rendered
    ensures res.rendered.Some? && res.rendered.value.name == "inventory/add-classification"
    ensures var data := res.rendered.value.data;
            "classification_name" in data && data["classification_name"] == Str("")
            && "errors" in data && data["errors"] == Null
    ensures res.rendered == Some(AddClassificationForm(nav, Str("")))
  {
    var view := AddClassificationForm(nav, Str(""));
    res.Render(view.name, view.data);
  }

  /** The flash after a classification is added. */
  function ClassificationAddedNotice(name: Value): string
  {
    "Congratulations, the new classification \"" + ToStr(name) + "\" has been added."
  }

  /** `registerClassification`: exactly one insert with the submitted name. Success
      renders the management page (without an `errors` entry); failure answers 501 and
      re-renders the form with the submitted name. */
  method RegisterClassification(req: Request, res: Response, inventory: InventoryStore, nav: string)
    modifies req`flashes, res`statusCode, res`rendered, inventory`queries
    ensures var name := BodyValue(req.body, "classification_name");
            inventory.queries == old(inventory.queries) + [InsertClassification(name)]
    ensures var name := BodyValue(req.body, "classification_name");
            inventory.classificationInserted(name) ==>
              && res.rendered == Some(View("inventory/management",
                                           map["title" := Str("Inventory Management"), "nav" := Str(nav)]))
              && res.statusCode == old(res.statusCode)
              && req.flashes == old(req.flashes) + [FlashMessage("notice", ClassificationAddedNotice(name))]
    ensures var name := BodyValue(req.body, "classification_name");
            !inventory.classificationInserted(name) ==>
              && res.statusCode == 501 && res.rendered == Some(AddClassificationForm(nav, name))
              && req.flashes == old(req.flashes) + [FlashMessage("notice", RegisterFailedNotice)]
  {
    var name := BodyValue(req.body, "classification_name");
    var inserted := inventory.RegisterClassification(name);
    if inserted {
      req.Flash("notice", ClassificationAddedNotice(name));
      res.Render("inventory/management", map["title" := Str("Inventory Management"), "nav" := Str(nav)]);
    } else {
      req.Flash("notice", RegisterFailedNotice);
      res.Status(501);
      var view := AddClassificationForm(nav, name);
      res.Render(view.name, view.data);
    }
  }

  // ----- adding a vehicle -----

  /** The ten vehicle fields, in the order the insert takes them. */
  const VehicleFields := ["inv_make", "inv_model", "inv_description", "inv_image", "inv_thumbnail",
                          "inv_price", "inv_year", "inv_miles", "inv_color", "classification_id"]

  /** The initial value of each vehicle field on an empty form. */
  function InitialField(key: string): Value
  {
    if key == "inv_image" then Str(NoImage)
    else if key == "inv_thumbnail" then Str(NoImageThumbnail)
    else Str("")
  }

  /** The values of the named fields on an empty form. */
  function InitialFields(keys: seq<string>): (r: map<string, Value>)
    ensures forall k :: k in r <==> k in keys
    ensures forall k :: k in keys ==> r[k] == InitialField(k)
  {
    if keys == [] then map[] else InitialFields(keys[1..])[keys[0] := InitialField(keys[0])]
  }

  /** The add-vehicle form around the given field values. */
  function AddVehicleForm(nav: string, classificationList: string, fields: map<string, Value>): View
  {
    View("inventory/add-inventory", map[
      "title" := Str("Add New Vehicle"), "nav" := Str(nav),
      "classificationList" := Str(classificationList), "errors" := Null] + fields)
  }

  /** An empty form over any list of fields holds each of them at its initial value. */
  lemma InitialFormHolds(nav: string, classificationList: string, keys: seq<string>)
    ensures var data := AddVehicleForm(nav, classificationList, InitialFields(keys)).data;
            forall k :: k in keys ==> k in data && data[k] == InitialField(k)
  {
  }

  /** An empty add-vehicle form holds every vehicle field, and all but the two picture
      fields are empty. */
  lemma InitialVehicleForm(nav: string, classificationList: string)
    ensures var data := AddVehicleForm(nav, classificationList, InitialFields(VehicleFields)).data;
            && (forall k :: k in VehicleFields ==> k in data)
            && (forall k :: k in VehicleFields && k != "inv_image" && k != "inv_thumbnail" ==> data[k] == Str(""))
  {
    InitialFormHolds(nav, classificationList, VehicleFields);
  }

  /** An empty add-vehicle form shows the placeholder pictures, which are valid vehicle
      image paths by `InventoryValidation.DefaultImagesPass`. */
  lemma InitialVehiclePictures(nav: string, classificationList: string)
    ensures var data := AddVehicleForm(nav, classificationList, InitialFields(VehicleFields)).data;
            && "inv_image" in data && data["inv_image"] == Str(NoImage)
            && "inv_thumbnail" in data && data["inv_thumbnail"] == Str(NoImageThumbnail)
  {
    InitialFormHolds(nav, classificationList, VehicleFields);
  }

  /** `buildAddInventory`: the empty form with the select list; when building the list
      throws, nothing is rendered. */
  method BuildAddInventory(res: Response, nav: string, classificationList: Result<string, JsError>)
    returns (thrown: Option<JsError>)
    modifies res`rendered
    ensures classificationList.Err? ==> thrown == Some(classificationList.error) && res.rendered == old(res.rendered)
    ensures classificationList.Ok? ==>
      thrown == None && res.rendered == Some(AddVehicleForm(nav, classificationList.value, InitialFields(VehicleFields)))
  {
    if classificationList.Err? {
      return Some(classificationList.error);
    }
    var view := AddVehicleForm(nav, classificationList.value, InitialFields(VehicleFields));
    res.Render(view.name, view.data);
    return None;
  }

  /** The submitted values of the named fields, in order. */
  function SubmittedValues(body: map<string, string>, keys: seq<string>): (r: seq<Value>)
    ensures |r| == |keys|
    ensures forall i :: 0 <= i < |keys| ==> r[i] == BodyValue(body, keys[i])
  {
    seq(|keys|, i requires 0 <= i < |keys| => BodyValue(body, keys[i]))
  }

  /** The add-vehicle form re-rendered with the submitted vehicle fields. */
  function SubmittedVehicleForm(nav: string, classificationList: string, body: map<string, string>): View
  {
    AddVehicleForm(nav, classificationList, Destructured(body, VehicleFields))
  }

  /** The flash after a vehicle is added, naming its make and model. */
  function VehicleAddedNotice(make: Value, model: Value): string
  {
    "Success! The " + ToStr(make) + " " + ToStr(model) + " has been added to the inventory."
  }

  /** `registerInventory`: exactly one insert with the ten submitted values. Success
      redirects to the management page with a flash naming the make and model. Failure
      builds the select list first (a throw there ends the handler before the flash),
      then answers 501 and re-renders the form with all ten submitted values. */
  method RegisterInventory(req: Request, res: Response, inventory: InventoryStore, nav: string,
                           classificationList: Result<string, JsError>)
    returns (thrown: Option<JsError>)
    modifies req`flashes, res`statusCode, res`rendered, res`location, inventory`queries
    ensures inventory.queries == old(inventory.queries) + [InsertInventory(SubmittedValues(req.body, VehicleFields))]
    ensures inventory.inventoryInserted(SubmittedValues(req.body, VehicleFields)) ==>
              && thrown == None && res.statusCode == 302 && res.location == Some("/inv/")
              && res.rendered == old(res.rendered)
              && req.flashes == old(req.flashes)
                 + [FlashMessage("notice", VehicleAddedNotice(BodyValue(req.body, "inv_make"), BodyValue(req.body, "inv_model")))]
    ensures !inventory.inventoryInserted(SubmittedValues(req.body, VehicleFields)) ==>
              && res.location == old(res.location)
              && (classificationList.Err? ==>
                    thrown == Some(classificationList.error) && req.flashes == old(req.flashes)
                    && res.rendered == old(res.rendered) && res.statusCode == old(res.statusCode))
              && (classificationList.Ok? ==>
                    && thrown == None && res.statusCode == 501
                    && res.rendered == Some(SubmittedVehicleForm(nav, classificationList.value, req.body))
                    && req.flashes == old(req.flashes) + [FlashMessage("notice", VehicleFailedNotice)])
  {
    var fields := SubmittedValues(req.body, VehicleFields);
    var inserted := inventory.RegisterInventory(fields);
    if inserted {
      req.Flash("notice", VehicleAddedNotice(BodyValue(req.body, "inv_make"), BodyValue(req.body, "inv_model")));
      res.Redirect("/inv/");
      return None;
    }
    if classificationList.Err? {
      return Some(classificationList.error);
    }
    req.Flash("notice", VehicleFailedNotice);
    res.Status(501);
    var view := SubmittedVehicleForm(nav, classificationList.value, req.body);
    res.Render(view.name, view.data);
    return None;
  }

  /** A failed vehicle submission echoes every one of the ten fields exactly as
      submitted, and the insert received them in the form's field order. */
  lemma FailedVehicleEchoed(body: map<string, string>, nav: string, classificationList: string)
    ensures var data := SubmittedVehicleForm(nav, classificationList, body).data;
            var sent := SubmittedValues(body, VehicleFields);
            forall i :: 0 <= i < |VehicleFields| ==> VehicleFields[i] in data && data[VehicleFields[i]] == sent[i]
  {
  }
}
