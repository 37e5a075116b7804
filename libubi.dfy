/**
 * What ubimkvol sends to and receives from libubi. The library itself is
 * foreign code: each call is represented by the answer it gives, and
 * `Library` bundles those answers for one run of the tool.
 */
module Libubi {
  import opened Wrappers

  /** Value of UBI_VOL_NUM_AUTO: let the kernel choose the volume id. */
  const VOL_NUM_AUTO := -1

  /** Value of UBI_MAX_VOLUME_NAME, the longest volume name UBI accepts. */
  const UBI_MAX_VOLUME_NAME := 127

  /** UBI_DYNAMIC_VOLUME and UBI_STATIC_VOLUME. */
  datatype VolType = Dynamic | Static

  /** The part of `struct ubi_info` the tool reads. */
  datatype UbiInfo = UbiInfo(devCount: nat)

  /** The part of `struct ubi_dev_info` the tool reads. */
  datatype DevInfo = DevInfo(devNum: int, availBytes: nat)

  /** The part of `struct ubi_vol_info` the tool reads. */
  datatype VolInfo = VolInfo(volId: int, rsvdBytes: int, ebSize: int, name: string)

  /** `struct ubi_mkvol_request`. */
  datatype MkvolRequest = MkvolRequest(volId: int, alignment: int, bytes: int, volType: VolType, name: string)

  /**
   * The answers of the library calls made in one run: whether libubi_open
   * gives a handle, what ubi_get_info reports, what ubi_get_dev_info reports
   * for a node, the volume id ubi_mkvol writes back into the request for a
   * node and a request (None when it fails), and what ubi_get_vol_info1
   * reports for a device number and a volume id.
   */
  datatype Library = Library(
    opens: bool,
    info: Option<UbiInfo>,
    devInfo: string -> Option<DevInfo>,
    mkvol: (string, MkvolRequest) -> Option<int>,
    volInfo: (int, int) -> Option<VolInfo>)

  /** The kernel never reports a volume whose erase blocks are zero bytes long. */
  ghost predicate NonZeroEraseBlocks(lib: Library) {
    forall dev, vol :: lib.volInfo(dev, vol).Some? ==> lib.volInfo(dev, vol).value.ebSize != 0
  }
}
