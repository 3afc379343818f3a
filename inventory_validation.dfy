/**
 * Validation of the add-classification, add-inventory and edit-inventory forms: the
 * rule lists, and the middlewares that either re-render the form with the errors or
 * pass the request on.
 *
 * The classification-name message speaks of "spaces or special characters", but its
 * pattern `^\S+$` rejects whitespace only: a name such as "SUV!" passes.
 */
module InventoryValidation {
  import opened Wrappers
  import opened Text
  import opened Js
  import opened Chains
  import opened Http

  const NameRequired := "Please provide a classification name."
  const NameHasSpaces := "Classification name must not contain spaces or special characters."
  const NameExists := "Classification name already exists. Please choose a different name."

  const ClassificationRequired := "Please select a classification."
  const MakeRequired := "Please provide a vehicle make (min 3 characters)."
  const ModelRequired := "Please provide a vehicle model (min 3 characters)."
  const DescriptionRequired := "Please provide a description (min 5 characters)."
  const ImageRequired := "Please provide an image path (min 6 characters)."
  const ImageInvalid := "Image path must be a valid path (e.g., /images/vehicles/file.png)."
  const ThumbnailRequired := "Please provide a thumbnail path (min 6 characters)."
  const ThumbnailInvalid := "Thumbnail path must be a valid path (e.g., /images/vehicles/file-tn.png)."
  const PriceNotNumber := "Price must be a number."
  const PriceNotPositive := "Price must be greater than zero."
  const YearInvalid := "Please provide a valid year."
  const MilesInvalid := "Miles must be a positive integer."
  const ColorRequired := "Please provide a vehicle color (min 3 characters)."

  /** The earliest model year accepted. */
  const FirstModelYear := 1886

  // ----- the classification name -----

  /** The pattern `^\S+$`, read as the regular expression reads it: a first character
      outside `\s`, then the same pattern or the end of the text. */
  predicate MatchesNonSpaceRun(s: string)
    decreases |s|
  {
    s != [] && !IsWhitespace(s[0]) && (|s| == 1 || MatchesNonSpaceRun(s[1..]))
  }

  /** `^\S+$` accepts exactly the non-empty texts without whitespace, whatever else they hold. */
  lemma {:induction false} NonSpaceRunIffNoWhitespace(s: string)
    ensures MatchesNonSpaceRun(s) <==> s != [] && NoWhitespace(s)
  {
    if |s| > 1 {
      NonSpaceRunIffNoWhitespace(s[1..]);
      if s != [] && NoWhitespace(s) {
        assert NoWhitespace(s[1..]);
      }
      if MatchesNonSpaceRun(s) {
        forall i | 0 <= i < |s| ensures !IsWhitespace(s[i]) {
          if i > 0 {
            assert s[i] == s[1..][i - 1];
          }
        }
      }
    }
  }

  /** The validators of `classificationRules()`, in order: the field each reads and the
      message it reports. */
  const ClassificationSlots := [("classification_name", NameRequired), ("classification_name", NameHasSpaces),
                                ("classification_name", NameExists)]

  lemma ClassificationSlotsDistinct()
    ensures Distinct(ClassificationSlots)
  {
  }

  /** `classificationRules()`: trim the name, then require it non-empty, free of
      whitespace and not already in the classification table. `existingCount` is the
      row count the store reports for a name. */
  function ClassificationRules(body: map<string, string>, existingCount: string -> int): (r: Validated)
    ensures r.body == TrimmedBody(body, "classification_name")
    ensures |r.errors| <= 3
  {
    var name := Trim(FieldText(body, "classification_name"));
    Validated(
      TrimmedBody(body, "classification_name"),
      Run(Table(ClassificationSlots, [LengthAtLeast(name, 1), MatchesNonSpaceRun(name), existingCount(name) == 0])))
  }

  /** Each classification-name message is reported exactly when its condition fails:
      the trimmed name has no character the length validator counts; the trimmed name is
      empty or holds whitespace; the store already has the trimmed name. */
  lemma ClassificationRulesMeaning(body: map<string, string>, existingCount: string -> int)
    ensures var text := FieldText(body, "classification_name");
            var r := ClassificationRules(body, existingCount);
            && (Reported(r, "classification_name", NameRequired) <==> ValidatorLength(Trim(text)) == 0)
            && (Reported(r, "classification_name", NameHasSpaces) <==> !(Trim(text) != [] && NoWhitespace(Trim(text))))
            && (Reported(r, "classification_name", NameExists) <==> existingCount(Trim(text)) != 0)
            && (r.errors == [] <==> ValidatorLength(Trim(text)) > 0 && NoWhitespace(Trim(text)) && existingCount(Trim(text)) == 0)
  {
    var text := FieldText(body, "classification_name");
    var name := Trim(text);
    var outcomes := [LengthAtLeast(name, 1), MatchesNonSpaceRun(name), existingCount(name) == 0];
    NonSpaceRunIffNoWhitespace(name);
    ClassificationSlotsDistinct();
    TableReports(ClassificationSlots, outcomes, 0, "classification_name", NameRequired);
    TableReports(ClassificationSlots, outcomes, 1, "classification_name", NameHasSpaces);
    TableReports(ClassificationSlots, outcomes, 2, "classification_name", NameExists);
    TableEmpty(ClassificationSlots, outcomes);
  }

  /** Without variation selectors, the "required" message is reported exactly when the
      submitted name is blank. */
  lemma ClassificationNameRequiredIffBlank(body: map<string, string>, existingCount: string -> int)
    requires NoVariationSelector(FieldText(body, "classification_name"))
    ensures Reported(ClassificationRules(body, existingCount), "classification_name", NameRequired)
            <==> AllWhitespace(FieldText(body, "classification_name"))
  {
    var text := FieldText(body, "classification_name");
    TrimIsSlice(text);
    var i, j :| 0 <= i <= j <= |text| && Trim(text) == text[i..j];
    assert NoVariationSelector(Trim(text));
    ValidatorLengthPlain(Trim(text));
    TrimEmptyIffBlank(text);
    ClassificationRulesMeaning(body, existingCount);
  }

  /** A name made of letters and punctuation passes the "spaces or special characters"
      rule. */
  lemma SpecialCharactersPass(existingCount: string -> int)
    requires existingCount("SUV!") == 0
    ensures ClassificationRules(map["classification_name" := "SUV!"], existingCount).errors == []
  {
    assert NoWhitespace("SUV!");
    TrimNoWhitespace("SUV!");
    ClassificationRulesMeaning(map["classification_name" := "SUV!"], existingCount);
  }

  /** A name of two words is rejected with the "spaces" message, whatever the store holds. */
  lemma InnerSpaceRejected(first: string, second: string, existingCount: string -> int)
    requires first != [] && second != [] && NoWhitespace(first) && NoWhitespace(second)
    ensures Reported(ClassificationRules(map["classification_name" := first + " " + second], existingCount),
                     "classification_name", NameHasSpaces)
  {
    var name := first + " " + second;
    assert name[0] == first[0] && name[|name| - 1] == second[|second| - 1];
    TrimKeepsTrimmed(name);
    assert name[|first|] == ' ';
    ClassificationRulesMeaning(map["classification_name" := name], existingCount);
  }

  // ----- vehicle image paths -----

  const VehicleImageDir := "/images/vehicles/"

  /** The extensions the path pattern allows. */
  predicate ImageExtension(ext: string)
  {
    ext == "jpg" || ext == "jpeg" || ext == "png"
  }

  /** `t` is a non-empty name followed by `.` and `ext`. */
  predicate HasExtension(t: string, ext: string)
  {
    |t| > |ext| + 1 && EndsWith(t, "." + ext)
  }

  /** The pattern `^\/images\/vehicles\/[^/]+\.(jpg|jpeg|png)$`: the vehicle image
      directory, then text free of `/` that ends in one of the extensions after at
      least one character. */
  predicate MatchesVehicleImagePath(s: string)
  {
    StartsWith(s, VehicleImageDir)
    && var t := s[|VehicleImageDir|..];
    '/' !in t && (HasExtension(t, "jpg") || HasExtension(t, "jpeg") || HasExtension(t, "png"))
  }

  /** The path of file `segment`.`ext` in the vehicle image directory. */
  function ImagePath(segment: string, ext: string): string
  {
    VehicleImageDir + (segment + ("." + ext))
  }

  lemma ImagePathOfParts(segment: string, ext: string)
    requires segment != [] && '/' !in segment && ImageExtension(ext)
    ensures MatchesVehicleImagePath(ImagePath(segment, ext))
  {
    var t := segment + ("." + ext);
    StartsWithConcat(VehicleImageDir, t);
    EndsWithConcat(segment, "." + ext);
    assert '/' !in "." + ext;
  }

  /** A path of the vehicle-image shape always passes the six-character length rule, so
      the length message never comes without the shape message or alone for such a path. */
  lemma ImagePathIsLongEnough(s: string)
    requires MatchesVehicleImagePath(s)
    ensures LengthAtLeast(s, 6)
  {
    assert forall i :: 0 <= i < 6 ==> s[i] == VehicleImageDir[i];
    ValidatorLengthAtLeast(s, 6);
  }

  /** A path is accepted exactly when it is a file with a non-empty name free of `/`
      and a `jpg`, `jpeg` or `png` extension, directly in the vehicle image directory. */
  lemma VehicleImagePathShape(s: string)
    ensures MatchesVehicleImagePath(s) <==>
            exists segment, ext :: segment != [] && '/' !in segment && ImageExtension(ext)
                                   && s == ImagePath(segment, ext)
  {
    if MatchesVehicleImagePath(s) {
      var t := s[|VehicleImageDir|..];
      var ext := if HasExtension(t, "jpg") then "jpg" else if HasExtension(t, "jpeg") then "jpeg" else "png";
      var segment := t[..|t| - |ext| - 1];
      assert t == segment + ("." + ext);
      assert s == VehicleImageDir + t by {
        assert s[..|VehicleImageDir|] == VehicleImageDir;
      }
      assert s == ImagePath(segment, ext);
      assert forall i :: 0 <= i < |segment| ==> segment[i] == t[i];
    }
    forall segment, ext | segment != [] && '/' !in segment && ImageExtension(ext) && s == ImagePath(segment, ext)
      ensures MatchesVehicleImagePath(s)
    {
      ImagePathOfParts(segment, ext);
    }
  }

  // ----- the inventory form -----

  /** The fields the inventory rule list trims. */
  const InventoryFields := ["classification_id", "inv_make", "inv_model", "inv_description", "inv_image",
                            "inv_thumbnail", "inv_price", "inv_year", "inv_miles", "inv_color"]

  /** The validators of `inventoryRules()`, in order: the field each reads and the message
      it reports. */
  const InventorySlots := [
    ("classification_id", ClassificationRequired),
    ("inv_make", MakeRequired),
    ("inv_model", ModelRequired),
    ("inv_description", DescriptionRequired),
    ("inv_image", ImageRequired),
    ("inv_image", ImageInvalid),
    ("inv_thumbnail", ThumbnailRequired),
    ("inv_thumbnail", ThumbnailInvalid),
    ("inv_price", PriceNotNumber),
    ("inv_price", PriceNotPositive),
    ("inv_year", YearInvalid),
    ("inv_miles", MilesInvalid),
    ("inv_color", ColorRequired)]

  lemma InventorySlotsDistinct()
    ensures Distinct(InventorySlots)
  {
  }

  /** The messages of the classification and text validators are reported exactly when
      those validators fail. */
  lemma TextSlotsReport(outcomes: seq<bool>)
    requires |outcomes| == |InventorySlots|
    ensures var errors := Run(Table(InventorySlots, outcomes));
      && (FieldError("classification_id", ClassificationRequired) in errors <==> !outcomes[0])
      && (FieldError("inv_make", MakeRequired) in errors <==> !outcomes[1])
      && (FieldError("inv_model", ModelRequired) in errors <==> !outcomes[2])
      && (FieldError("inv_description", DescriptionRequired) in errors <==> !outcomes[3])
  {
    InventorySlotsDistinct();
    TableReports(InventorySlots, outcomes, 0, "classification_id", ClassificationRequired);
    TableReports(InventorySlots, outcomes, 1, "inv_make", MakeRequired);
    TableReports(InventorySlots, outcomes, 2, "inv_model", ModelRequired);
    TableReports(InventorySlots, outcomes, 3, "inv_description", DescriptionRequired);
  }

  /** The same for the image and thumbnail validators. */
  lemma ImageSlotsReport(outcomes: seq<bool>)
    requires |outcomes| == |InventorySlots|
    ensures var errors := Run(Table(InventorySlots, outcomes));
      && (FieldError("inv_image", ImageRequired) in errors <==> !outcomes[4])
      && (FieldError("inv_image", ImageInvalid) in errors <==> !outcomes[5])
      && (FieldError("inv_thumbnail", ThumbnailRequired) in errors <==> !outcomes[6])
      && (FieldError("inv_thumbnail", ThumbnailInvalid) in errors <==> !outcomes[7])
  {
    assert Distinct(InventorySlots) by {
      InventorySlotsDistinct();
    }
    TableReports(InventorySlots, outcomes, 4, "inv_image", ImageRequired);
    TableReports(InventorySlots, outcomes, 5, "inv_image", ImageInvalid);
    TableReports(InventorySlots, outcomes, 6, "inv_thumbnail", ThumbnailRequired);
    TableReports(InventorySlots, outcomes, 7, "inv_thumbnail", ThumbnailInvalid);
  }

  /** The same for the price and year validators. */
  lemma PriceYearSlotsReport(outcomes: seq<bool>)
    requires |outcomes| == |InventorySlots|
    ensures var errors := Run(Table(InventorySlots, outcomes));
      && (FieldError("inv_price", PriceNotNumber) in errors <==> !outcomes[8])
      && (FieldError("inv_price", PriceNotPositive) in errors <==> !outcomes[9])
      && (FieldError("inv_year", YearInvalid) in errors <==> !outcomes[10])
  {
    InventorySlotsDistinct();
    TableReports(InventorySlots, outcomes, 8, "inv_price", PriceNotNumber);
    TableReports(InventorySlots, outcomes, 9, "inv_price", PriceNotPositive);
    TableReports(InventorySlots, outcomes, 10, "inv_year", YearInvalid);
  }

  /** The same for the mileage and color validators. */
  lemma MilesColorSlotsReport(outcomes: seq<bool>)
    requires |outcomes| == |InventorySlots|
    ensures var errors := Run(Table(InventorySlots, outcomes));
      && (FieldError("inv_miles", MilesInvalid) in errors <==> !outcomes[11])
      && (FieldError("inv_color", ColorRequired) in errors <==> !outcomes[12])
  {
    InventorySlotsDistinct();
    TableReports(InventorySlots, outcomes, 11, "inv_miles", MilesInvalid);
    TableReports(InventorySlots, outcomes, 12, "inv_color", ColorRequired);
  }

  /** Whether each validator of `inventoryRules()` passes, reading the trimmed `fields`.
      `currentYear` is the year the request is handled in; `isNumeric` and
      `isFloatAtLeastOne` are the library's `isNumeric()` and `isFloat({ min: 1 })`. */
  function InventoryOutcomes(fields: map<string, string>, currentYear: int,
                             isNumeric: string -> bool, isFloatAtLeastOne: string -> bool): (r: seq<bool>)
    ensures |r| == |InventorySlots|
  {
    [IsIntAtLeast(FieldText(fields, "classification_id"), 1),
     LengthAtLeast(FieldText(fields, "inv_make"), 3),
     LengthAtLeast(FieldText(fields, "inv_model"), 3),
     LengthAtLeast(FieldText(fields, "inv_description"), 5),
     LengthAtLeast(FieldText(fields, "inv_image"), 6),
     MatchesVehicleImagePath(FieldText(fields, "inv_image")),
     LengthAtLeast(FieldText(fields, "inv_thumbnail"), 6),
     MatchesVehicleImagePath(FieldText(fields, "inv_thumbnail")),
     isNumeric(FieldText(fields, "inv_price")),
     isFloatAtLeastOne(FieldText(fields, "inv_price")),
     IsIntBetween(FieldText(fields, "inv_year"), FirstModelYear, currentYear + 1),
     IsIntAtLeast(FieldText(fields, "inv_miles"), 0),
     LengthAtLeast(FieldText(fields, "inv_color"), 3)]
  }

  /** `inventoryRules()`: every field is trimmed, then checked. */
  function InventoryRules(body: map<string, string>, currentYear: int,
                          isNumeric: string -> bool, isFloatAtLeastOne: string -> bool): (r: Validated)
    ensures r.body == TrimmedFields(body, InventoryFields)
    ensures |r.errors| <= |InventorySlots|
  {
    var fields := TrimmedFields(body, InventoryFields);
    Validated(fields, Run(Table(InventorySlots, InventoryOutcomes(fields, currentYear, isNumeric, isFloatAtLeastOne))))
  }

  /** The messages about the classification, make, model and description are reported
      exactly when the trimmed classification is not a positive integer or the text is shorter than
      its minimum. */
  lemma InventoryTextRulesMeaning(body: map<string, string>, currentYear: int,
                                  isNumeric: string -> bool, isFloatAtLeastOne: string -> bool)
    ensures var r := InventoryRules(body, currentYear, isNumeric, isFloatAtLeastOne);
      && (Reported(r, "classification_id", ClassificationRequired) <==> !IsIntAtLeast(FieldText(r.body, "classification_id"), 1))
      && (Reported(r, "inv_make", MakeRequired) <==> ValidatorLength(FieldText(r.body, "inv_make")) < 3)
      && (Reported(r, "inv_model", ModelRequired) <==> ValidatorLength(FieldText(r.body, "inv_model")) < 3)
      && (Reported(r, "inv_description", DescriptionRequired) <==> ValidatorLength(FieldText(r.body, "inv_description")) < 5)
  {
    var fields := TrimmedFields(body, InventoryFields);
    TextSlotsReport(InventoryOutcomes(fields, currentYear, isNumeric, isFloatAtLeastOne));
  }

  /** The image and thumbnail messages: one when the path is shorter than six characters,
      one when it does not have the vehicle-image shape. */
  lemma InventoryImageRulesMeaning(body: map<string, string>, currentYear: int,
                                   isNumeric: string -> bool, isFloatAtLeastOne: string -> bool)
    ensures var r := InventoryRules(body, currentYear, isNumeric, isFloatAtLeastOne);
      && (Reported(r, "inv_image", ImageRequired) <==> ValidatorLength(FieldText(r.body, "inv_image")) < 6)
      && (Reported(r, "inv_image", ImageInvalid) <==> !MatchesVehicleImagePath(FieldText(r.body, "inv_image")))
      && (Reported(r, "inv_thumbnail", ThumbnailRequired) <==> ValidatorLength(FieldText(r.body, "inv_thumbnail")) < 6)
      && (Reported(r, "inv_thumbnail", ThumbnailInvalid) <==> !MatchesVehicleImagePath(FieldText(r.body, "inv_thumbnail")))
  {
    var fields := TrimmedFields(body, InventoryFields);
    ImageSlotsReport(InventoryOutcomes(fields, currentYear, isNumeric, isFloatAtLeastOne));
  }

  /** The remaining messages: the price must be numeric and at least one; the year an
      integer from 1886 to next year; the mileage a non-negative integer; the color at
      least three characters. */
  lemma InventoryNumberRulesMeaning(body: map<string, string>, currentYear: int,
                                    isNumeric: string -> bool, isFloatAtLeastOne: string -> bool)
    ensures var r := InventoryRules(body, currentYear, isNumeric, isFloatAtLeastOne);
      && (Reported(r, "inv_price", PriceNotNumber) <==> !isNumeric(FieldText(r.body, "inv_price")))
      && (Reported(r, "inv_price", PriceNotPositive) <==> !isFloatAtLeastOne(FieldText(r.body, "inv_price")))
      && (Reported(r, "inv_year", YearInvalid) <==> !IsIntBetween(FieldText(r.body, "inv_year"), FirstModelYear, currentYear + 1))
      && (Reported(r, "inv_miles", MilesInvalid) <==> !IsIntAtLeast(FieldText(r.body, "inv_miles"), 0))
      && (Reported(r, "inv_color", ColorRequired) <==> ValidatorLength(FieldText(r.body, "inv_color")) < 3)
  {
    var fields := TrimmedFields(body, InventoryFields);
    var outcomes := InventoryOutcomes(fields, currentYear, isNumeric, isFloatAtLeastOne);
    PriceYearSlotsReport(outcomes);
    MilesColorSlotsReport(outcomes);
  }

  /** A vehicle passes exactly when every validator passes on the trimmed fields. */
  lemma InventoryRulesPass(body: map<string, string>, currentYear: int,
                           isNumeric: string -> bool, isFloatAtLeastOne: string -> bool)
    ensures var r := InventoryRules(body, currentYear, isNumeric, isFloatAtLeastOne);
            var outcomes := InventoryOutcomes(r.body, currentYear, isNumeric, isFloatAtLeastOne);
            r.errors == [] <==> forall i :: 0 <= i < |outcomes| ==> outcomes[i]
  {
    var fields := TrimmedFields(body, InventoryFields);
    TableEmpty(InventorySlots, InventoryOutcomes(fields, currentYear, isNumeric, isFloatAtLeastOne));
  }

  /** The form's default image and thumbnail paths satisfy both path rules. */
  lemma DefaultImagesPass(image: string, thumbnail: string)
    requires image == VehicleImageDir + "no-image.png"
    requires thumbnail == VehicleImageDir + "no-image-tn.png"
    ensures LengthAtLeast(image, 6) && MatchesVehicleImagePath(image)
    ensures LengthAtLeast(thumbnail, 6) && MatchesVehicleImagePath(thumbnail)
  {
    ImagePathOfParts("no-image", "png");
    assert ImagePath("no-image", "png") == image;
    ImagePathIsLongEnough(image);
    ImagePathOfParts("no-image-tn", "png");
    assert ImagePath("no-image-tn", "png") == thumbnail;
    ImagePathIsLongEnough(thumbnail);
  }

  // ----- the check middlewares -----

  /** The submitted body fields as the view data of a spread `...req.body`. */
  function BodyValues(body: map<string, string>): (r: map<string, Value>)
    ensures r.Keys == body.Keys
    ensures forall k :: k in body ==> r[k] == Str(body[k])
  {
    map k | k in body :: Str(body[k])
  }

  /** The add-classification form re-rendered with the errors and the submitted name. */
  function AddClassificationView(errors: seq<FieldError>, nav: string, body: map<string, string>): View
  {
    View("inventory/add-classification",
         map["errors" := Errors(errors), "title" := Str("Add New Classification"), "nav" := Str(nav),
             "classification_name" := BodyValue(body, "classification_name")])
  }

  /** After `classificationRules()` the re-rendered form echoes the trimmed name, ""
      when none was submitted: never undefined. */
  lemma ClassificationEchoAfterRules(errors: seq<FieldError>, nav: string, body: map<string, string>,
                                     existingCount: string -> int)
    ensures AddClassificationView(errors, nav, ClassificationRules(body, existingCount).body).data["classification_name"]
            == Str(Trim(FieldText(body, "classification_name")))
  {
    if "classification_name" !in body {
      assert Trim("") == "";
    }
  }

  /** `checkClassificationData`: with errors, re-render the form and stop; without,
      continue. `nav` is the navigation markup. */
  method CheckClassificationData(req: Request, res: Response, nav: string)
    modifies res`rendered, res`nextCalled
    ensures req.errors != [] ==> res.rendered == Some(AddClassificationView(req.errors, nav, req.body))
                                 && res.nextCalled == old(res.nextCalled)
    ensures req.errors == [] ==> res.nextCalled && res.rendered == old(res.rendered)
  {
    if req.errors != [] {
      res.Render("inventory/add-classification",
        map["errors" := Errors(req.errors), "title" := Str("Add New Classification"), "nav" := Str(nav),
            "classification_name" := BodyValue(req.body, "classification_name")]);
      return;
    }
    res.Next();
  }

  /** The add-inventory form re-rendered: the errors, title, navigation and select list,
      overridden by every submitted field of the same name. */
  function AddInventoryView(errors: seq<FieldError>, nav: string, classificationList: string,
                            body: map<string, string>): (v: View)
    ensures v.name == "inventory/add-inventory"
    ensures forall k :: k in body ==> k in v.data && v.data[k] == Str(body[k])
    ensures "errors" !in body ==> "errors" in v.data && v.data["errors"] == Errors(errors)
    ensures "classificationList" !in body ==> "classificationList" in v.data
                                              && v.data["classificationList"] == Str(classificationList)
  {
    View("inventory/add-inventory",
         map["errors" := Errors(errors), "title" := Str("Add New Vehicle"), "nav" := Str(nav),
             "classificationList" := Str(classificationList)] + BodyValues(body))
  }

  /** `checkInventoryData`. `classificationList` is what building the select list gives:
      when it throws, the middleware throws and nothing is rendered. */
  method CheckInventoryData(req: Request, res: Response, nav: string, classificationList: Result<string, JsError>)
    returns (thrown: Option<JsError>)
    modifies res`rendered, res`nextCalled
    ensures req.errors == [] ==> thrown == None && res.nextCalled && res.rendered == old(res.rendered)
    ensures req.errors != [] && classificationList.Err? ==>
      thrown == Some(classificationList.error) && res.rendered == old(res.rendered) && res.nextCalled == old(res.nextCalled)
    ensures req.errors != [] && classificationList.Ok? ==>
      thrown == None && res.nextCalled == old(res.nextCalled)
      && res.rendered == Some(AddInventoryView(req.errors, nav, classificationList.value, req.body))
  {
    thrown := None;
    if req.errors != [] {
      match classificationList {
        case Err(e) =>
          thrown := Some(e);
          return;
        case Ok(list) =>
          res.Render("inventory/add-inventory",
            map["errors" := Errors(req.errors), "title" := Str("Add New Vehicle"), "nav" := Str(nav),
                "classificationList" := Str(list)] + BodyValues(req.body));
          return;
      }
    }
    res.Next();
  }

  /** The fields the edit form echoes back. */
  const EditFields := ["inv_id", "inv_make", "inv_model", "inv_year", "inv_description", "inv_image",
                       "inv_thumbnail", "inv_price", "inv_miles", "inv_color", "classification_id"]

  /** The edit-inventory form re-rendered: titled after the submitted make and model,
      with every field echoed back as submitted (the hidden `inv_id` included). */
  function EditInventoryView(errors: seq<FieldError>, nav: string, classificationSelect: string,
                             body: map<string, string>): (v: View)
    ensures v.name == "./inventory/edit-inventory"
    ensures forall k :: k in EditFields ==> k in v.data && v.data[k] == BodyValue(body, k)
    ensures "title" in v.data && v.data["title"] ==
            Str("Edit " + ToStr(BodyValue(body, "inv_make")) + " " + ToStr(BodyValue(body, "inv_model")))
    ensures "errors" in v.data && v.data["errors"] == Errors(errors)
  {
    var title := "Edit " + ToStr(BodyValue(body, "inv_make")) + " " + ToStr(BodyValue(body, "inv_model"));
    assert "title" !in EditFields && "errors" !in EditFields;
    View("./inventory/edit-inventory",
         map["title" := Str(title), "nav" := Str(nav), "classificationSelect" := Str(classificationSelect),
             "errors" := Errors(errors)] + Destructured(body, EditFields))
  }

  /** `checkUpdateData` (inventory): the select list is built first, so when building it
      throws the middleware throws whether or not there are errors. */
  method CheckUpdateData(req: Request, res: Response, nav: string, classificationSelect: Result<string, JsError>)
    returns (thrown: Option<JsError>)
    modifies res`rendered, res`nextCalled
    ensures classificationSelect.Err? ==>
      thrown == Some(classificationSelect.error) && res.rendered == old(res.rendered) && res.nextCalled == old(res.nextCalled)
    ensures classificationSelect.Ok? && req.errors == [] ==>
      thrown == None && res.nextCalled && res.rendered == old(res.rendered)
    ensures classificationSelect.Ok? && req.errors != [] ==>
      thrown == None && res.nextCalled == old(res.nextCalled)
      && res.rendered == Some(EditInventoryView(req.errors, nav, classificationSelect.value, req.body))
  {
    thrown := None;
    match classificationSelect {
      case Err(e) =>
        thrown := Some(e);
        return;
      case Ok(select) =>
        if req.errors != [] {
          var view := EditInventoryView(req.errors, nav, select, req.body);
          res.Render(view.name, view.data);
          return;
        }
    }
    res.Next();
  }
}
