/**
 * The output HDF5 file as a store: named datasets and file attributes. An
 * edge index is stored as its columns; a selection mask as uint8 0/1 values.
 */
module H5Store {
  import opened Graph

  datatype Dataset = EdgeIndex(edges: seq<Edge>) | MaskData(bits: seq<int>)

  datatype Attr = AttrText(text: string) | AttrFlag(flag: bool)

  datatype Store = Store(datasets: map<string, Dataset>, attrs: map<string, Attr>)

  /** An open h5py.File in append or write mode. */
  class H5File {
    var datasets: map<string, Dataset>
    var attrs: map<string, Attr>

    /** Open a file whose current contents are s (empty when it did not exist). */
    constructor (s: Store)
      ensures Contents() == s
    {
      datasets := s.datasets;
      attrs := s.attrs;
    }

    function Contents(): Store
      reads this
    {
      Store(datasets, attrs)
    }

    /** `f.attrs[key] = value`. */
    method SetAttr(key: string, value: Attr)
      modifies this
      ensures datasets == old(datasets) && attrs == old(attrs)[key := value]
    {
      attrs := attrs[key := value];
    }

    /** `del f[name]`. */
    method Delete(name: string)
      requires name in datasets
      modifies this
      ensures datasets == old(datasets) - {name} && attrs == old(attrs)
    {
      datasets := datasets - {name};
    }

    /** `f.create_dataset(name, data=...)`; h5py refuses an existing name. */
    method CreateDataset(name: string, data: Dataset)
      requires name !in datasets
      modifies this
      ensures datasets == old(datasets)[name := data] && attrs == old(attrs)
    {
      datasets := datasets[name := data];
    }
  }
}
