/**
 * The device registration dialog: the component's state slots as fields, its
 * event handlers as methods, and the host's open flag, which the dialog's
 * close callback clears.
 */
module DeviceForm {
  import opened Wrappers
  import opened NumberParsing
  import opened ProtocolCatalogue
  import opened Selection
  import opened FieldRules

  /** How the submit request settled: any HTTP response, or a rejected `fetch`. */
  datatype PostOutcome = Responded(status: int) | NetworkError

  class DeviceFormModal {
    /** Reference data, as loaded from the protocol catalogue and the link table. */
    const protocolsData: seq<Protocol>
    const protocolsToDevice: seq<ProtocolToDevice>

    /** The host's `isOpen`, passed to the dialog as `show`. */
    var isOpen: bool

    var selectedProtocols: seq<int>
    var toastActive: bool
    /** An object URL; its text is chosen by the browser. */
    var previewUrl: Option<string>
    var price: Option<int>
    var deviceType: string
    var photo: Option<File>

    /**
     * What every handler keeps: the price is unset or non-negative, a kept
     * photo is a JPEG or a PNG and has a preview, the error message is shown
     * only while no photo is kept, and no protocol is checked twice.
     */
    ghost predicate Valid()
      reads this
    {
      && ValidPrice(price)
      && (photo.Some? ==> AcceptsPhoto(photo))
      && (previewUrl.Some? <==> photo.Some?)
      && (toastActive ==> photo.None?)
      && Distinct(selectedProtocols)
    }

    /** The dialog as first rendered, closed, with every slot at its initial value. */
    constructor (protocols: seq<Protocol>, links: seq<ProtocolToDevice>)
      ensures Valid()
      ensures protocolsData == protocols && protocolsToDevice == links
      ensures !isOpen
      ensures selectedProtocols == [] && !toastActive && previewUrl == None
      ensures price == None && deviceType == "" && photo == None
    {
      protocolsData, protocolsToDevice := protocols, links;
      isOpen := false;
      selectedProtocols := [];
      toastActive := false;
      previewUrl := None;
      price := None;
      deviceType := "";
      photo := None;
    }

    /** The protocol check boxes currently shown. */
    function Available(): seq<Protocol>
      reads this
    {
      AvailableProtocols(deviceType, protocolsToDevice, protocolsData)
    }

    /** The host's trigger button. Nothing of the draft is reset. */
    method Open()
      requires Valid()
      modifies this`isOpen
      ensures Valid()
      ensures isOpen
    {
      isOpen := true;
    }

    /**
     * The photo picker's `onChange`; `objectUrl` is what the browser returns
     * for the accepted file.
     */
    method OnPhotoChange(files: seq<File>, objectUrl: string)
      requires Valid()
      modifies this`photo, this`previewUrl, this`toastActive
      ensures Valid()
      ensures AcceptsPhoto(FirstFile(files)) ==>
        photo == FirstFile(files) && previewUrl == Some(objectUrl) && !toastActive
      ensures !AcceptsPhoto(FirstFile(files)) ==>
        photo == None && previewUrl == None && toastActive
    {
      var file := FirstFile(files);
      if file.Some? && (file.value.mimeType == "image/jpeg" || file.value.mimeType == "image/png") {
        photo := file;
        toastActive := false;
        previewUrl := Some(objectUrl);
      } else {
        toastActive := true;
        photo := None;
        previewUrl := None;
      }
    }

    /** The price box's `onChange`. */
    method OnPriceChange(value: string)
      requires Valid()
      modifies this`price
      ensures Valid()
      ensures price == NextPrice(old(price), value)
    {
      if value == "" {
        price := None;
      } else {
        var priceToSet := ParseInt(value);
        if priceToSet.Some? && priceToSet.value >= 0 {
          price := priceToSet;
        }
      }
    }

    /** The device-type drop-down's `onChange`. The checked protocols are kept as they are. */
    method OnDeviceTypeChange(value: string)
      requires Valid()
      modifies this`deviceType
      ensures Valid()
      ensures deviceType == value
    {
      deviceType := value;
    }

    /** A protocol check box's `onChange` (`handleProtocolChange`). */
    method OnProtocolChange(protocolId: int)
      requires Valid()
      modifies this`selectedProtocols
      ensures Valid()
      ensures selectedProtocols == Toggle(old(selectedProtocols), protocolId)
    {
      ToggleKeepsDistinct(selectedProtocols, protocolId);
      selectedProtocols := Toggle(selectedProtocols, protocolId);
    }

    /**
     * The submit button: once the POST has settled, whatever its outcome, the
     * dialog closes. The draft is neither cleared nor changed.
     */
    method Submit(outcome: PostOutcome)
      requires Valid()
      modifies this`isOpen
      ensures Valid()
      ensures !isOpen
    {
      // A rejected request is only logged; either way the close callback runs.
      isOpen := false;
    }

    /** The cancel button and the modal's own close control. */
    method Cancel()
      requires Valid()
      modifies this`isOpen
      ensures Valid()
      ensures !isOpen
    {
      isOpen := false;
    }
  }

  /** Choosing a device type offers its protocols; choosing another one leaves the old check marks. */
  method ProtocolScenario()
  {
    var router := DeviceType(1, "Router", 0);
    var mqtt := Protocol(5, "MQTT");
    var form := new DeviceFormModal([mqtt], [ProtocolToDevice(1, 5, 1)]);
    EmptySelectionNoProtocols(form.protocolsToDevice, form.protocolsData);
    assert form.Available() == [];

    form.Open();
    form.OnDeviceTypeChange(ShowInt(router.id));
    ChoosingDeviceType(router, form.protocolsToDevice, form.protocolsData, mqtt);
    assert mqtt in form.Available();

    form.OnProtocolChange(mqtt.id);
    assert form.selectedProtocols == [5];

    // Another device type: MQTT is no longer offered, yet it stays checked.
    var switch := DeviceType(2, "Switch", 0);
    form.OnDeviceTypeChange(ShowInt(switch.id));
    ChoosingDeviceType(switch, form.protocolsToDevice, form.protocolsData, mqtt);
    assert mqtt !in form.Available();
    assert 5 in form.selectedProtocols;

    form.Submit(NetworkError);
    assert !form.isOpen && form.selectedProtocols == [5];
  }

  /** A plain-text file is refused and clears the earlier photo; a negative price is ignored. */
  method FieldScenario()
  {
    var form := new DeviceFormModal([], []);
    form.OnPhotoChange([File("router.png", "image/png")], "blob:1");
    assert form.photo == Some(File("router.png", "image/png")) && !form.toastActive;
    form.OnPhotoChange([File("notes.txt", "text/plain")], "blob:2");
    assert form.photo == None && form.previewUrl == None && form.toastActive;

    PriceTextRoundTrip(form.price, Some(12));
    form.OnPriceChange(ShowInt(12));
    assert form.price == Some(12);
    ParseShowInt(-3);
    form.OnPriceChange(ShowInt(-3));
    assert form.price == Some(12);
    form.OnPriceChange("");
    assert form.price == None;
  }
}
