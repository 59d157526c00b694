/** The admin's fleet table and its delete confirmation. */
module CarList {
  import opened Wrappers
  import opened Records
  import opened Seqs
  import CarActions

  /** A row of the fleet table. */
  datatype AdminCar = AdminCar(id: string, name: Option<string>, isAvailable: Option<bool>)

  predicate IdIsNot(id: string, c: AdminCar) {
    c.id != id
  }

  /** The table after a successful delete of `id`. */
  function Without(cars: seq<AdminCar>, id: string): (r: seq<AdminCar>)
    ensures forall i :: 0 <= i < |r| ==> r[i].id != id
  {
    Filter(cars, c => IdIsNot(id, c))
  }

  /** Deleting removes exactly the rows with that id, the rest in order. */
  lemma WithoutSpec(cars: seq<AdminCar>, id: string)
    ensures forall c :: c in Without(cars, id) <==> c in cars && c.id != id
    ensures IsSubsequence(Without(cars, id), cars)
  {
    forall c ensures c in Without(cars, id) <==> c in cars && c.id != id {
      FilterMembership(cars, c => IdIsNot(id, c), c);
    }
    FilterIsSubsequence(cars, c => IdIsNot(id, c));
  }

  class CarListPanel {
    var cars: seq<AdminCar>
    var showDeleteDialog: bool
    var carToDelete: Option<AdminCar>

    constructor (fetched: seq<AdminCar>)
      ensures cars == fetched && !showDeleteDialog && carToDelete == None
    {
      cars := fetched;
      showDeleteDialog := false;
      carToDelete := None;
    }

    /** `handleDeleteClick`: remembers the car and opens the dialog. */
    method HandleDeleteClick(c: AdminCar)
      modifies this
      ensures carToDelete == Some(c) && showDeleteDialog && cars == old(cars)
    {
      carToDelete := Some(c);
      showDeleteDialog := true;
    }

    /** `handleDeleteConfirm`: without a selection nothing happens;
        otherwise the car is deleted from the store and, on success, from
        the table; either way the dialog closes and the selection clears.
        `storageError` and `deleteError` are the rejections `deleteCar`
        may meet. */
    method HandleDeleteConfirm(db: RecordStore, storageError: Option<string>, deleteError: Option<string>)
      returns (res: Result<()>)
      modifies this, db
      ensures old(carToDelete) == None ==>
                res.Ok? && cars == old(cars) && showDeleteDialog == old(showDeleteDialog) &&
                carToDelete == None && db.cars == old(db.cars)
      ensures old(carToDelete).Some? ==>
                !showDeleteDialog && carToDelete == None &&
                (res.Ok? <==> db.connected && old(carToDelete).value.id in old(db.cars) &&
                              (storageError.None? || !CarActions.HasImages(old(db.cars)[old(carToDelete).value.id])) &&
                              deleteError.None?) &&
                cars == (if res.Ok? then Without(old(cars), old(carToDelete).value.id) else old(cars)) &&
                db.cars == (if res.Ok? then old(db.cars) - {old(carToDelete).value.id} else old(db.cars))
      ensures db.bookings == old(db.bookings) && db.agreements == old(db.agreements)
      ensures db.testimonials == old(db.testimonials) && db.users == old(db.users)
    {
      if carToDelete == None {
        return Ok(());
      }
      var id := carToDelete.value.id;
      res := CarActions.DeleteCar(db, id, storageError, deleteError);
      if res.Ok? {
        cars := Without(cars, id);
      }
      showDeleteDialog := false;
      carToDelete := None;
    }
  }
}
