/**
 * The dataset catalogue tables the folder sync script and the food/other
 * review UI work on (src/sync-dataset-from-folders.ts,
 * src/simple-classification-ui.ts): images with a country and an absolute
 * file path, named datasets, links from a dataset to its images with the
 * folder each came from, a table of label names, and image labels that
 * point at a label row. SQLite assigns ids from 1 and never reuses them;
 * a query without ORDER BY returns rows in id order.
 */
module Catalog {
  import opened Wrappers
  import opened Records

  datatype CatalogImage = CatalogImage(
    id: nat,
    url: string,
    fileName: string,
    filePath: string,
    country: string,
    downloadStatus: DownloadStatus,
    processStatus: ProcessStatus)

  datatype Dataset = Dataset(id: nat, name: string, description: string, datasetPath: string)

  datatype DatasetLink = DatasetLink(id: nat, datasetId: nat, imageId: nat, folderName: string)

  datatype LabelRow = LabelRow(id: nat, name: string, description: string, category: string)

  datatype ClassLabel = ClassLabel(id: nat, imageId: nat, labelId: nat, confidence: real, isManual: bool, isReviewed: bool)

  predicate ImagesWellFormed(images: seq<CatalogImage>, nextId: nat) {
    nextId >= 1 &&
    (forall i :: 0 <= i < |images| ==> 1 <= images[i].id < nextId) &&
    (forall i, j :: 0 <= i < j < |images| ==> images[i].id != images[j].id && images[i].url != images[j].url)
  }

  predicate DatasetsWellFormed(datasets: seq<Dataset>, nextId: nat) {
    nextId >= 1 &&
    (forall i :: 0 <= i < |datasets| ==> 1 <= datasets[i].id < nextId) &&
    (forall i, j :: 0 <= i < j < |datasets| ==> datasets[i].id != datasets[j].id)
  }

  predicate LinksWellFormed(links: seq<DatasetLink>, nextId: nat) {
    nextId >= 1 &&
    (forall i :: 0 <= i < |links| ==> 1 <= links[i].id < nextId) &&
    (forall i, j :: 0 <= i < j < |links| ==> links[i].id != links[j].id)
  }

  predicate LabelRowsWellFormed(rows: seq<LabelRow>, nextId: nat) {
    nextId >= 1 &&
    (forall i :: 0 <= i < |rows| ==> 1 <= rows[i].id < nextId) &&
    (forall i, j :: 0 <= i < j < |rows| ==> rows[i].id != rows[j].id)
  }

  predicate ClassLabelsWellFormed(labels: seq<ClassLabel>, nextId: nat) {
    nextId >= 1 && forall i :: 0 <= i < |labels| ==> 1 <= labels[i].id < nextId
  }

  class CatalogDb {
    var images: seq<CatalogImage>
    var datasets: seq<Dataset>
    var links: seq<DatasetLink>
    var labelRows: seq<LabelRow>
    var imageLabels: seq<ClassLabel>
    var nextImageId: nat
    var nextDatasetId: nat
    var nextLinkId: nat
    var nextLabelRowId: nat
    var nextImageLabelId: nat

    ghost predicate Valid()
      reads this
    {
      ImagesWellFormed(images, nextImageId) &&
      DatasetsWellFormed(datasets, nextDatasetId) &&
      LinksWellFormed(links, nextLinkId) &&
      LabelRowsWellFormed(labelRows, nextLabelRowId) &&
      ClassLabelsWellFormed(imageLabels, nextImageLabelId)
    }

    constructor ()
      ensures Valid()
      ensures images == [] && datasets == [] && links == [] && labelRows == [] && imageLabels == []
    {
      images, datasets, links, labelRows, imageLabels := [], [], [], [], [];
      nextImageId, nextDatasetId, nextLinkId, nextLabelRowId, nextImageLabelId := 1, 1, 1, 1, 1;
    }

    /** Commits a new `datasets` table; every other table stays as it is. */
    method SetDatasets(rows: seq<Dataset>, nextId: nat)
      requires Valid() && DatasetsWellFormed(rows, nextId)
      modifies this
      ensures Valid()
      ensures datasets == rows && nextDatasetId == nextId
      ensures images == old(images) && links == old(links) && labelRows == old(labelRows) && imageLabels == old(imageLabels)
      ensures nextImageId == old(nextImageId) && nextLinkId == old(nextLinkId)
      ensures nextLabelRowId == old(nextLabelRowId) && nextImageLabelId == old(nextImageLabelId)
    {
      datasets, nextDatasetId := rows, nextId;
    }

    /** Commits new `images` and `dataset_images` tables; every other table stays as it is. */
    method SetImagesAndLinks(newImages: seq<CatalogImage>, imageId: nat, newLinks: seq<DatasetLink>, linkId: nat)
      requires Valid() && ImagesWellFormed(newImages, imageId) && LinksWellFormed(newLinks, linkId)
      modifies this
      ensures Valid()
      ensures images == newImages && nextImageId == imageId && links == newLinks && nextLinkId == linkId
      ensures datasets == old(datasets) && labelRows == old(labelRows) && imageLabels == old(imageLabels)
      ensures nextDatasetId == old(nextDatasetId) && nextLabelRowId == old(nextLabelRowId) && nextImageLabelId == old(nextImageLabelId)
    {
      images, nextImageId, links, nextLinkId := newImages, imageId, newLinks, linkId;
    }

    /** Commits a new `image_labels` table; every other table stays as it is. */
    method SetImageLabels(labels: seq<ClassLabel>, nextId: nat)
      requires Valid() && ClassLabelsWellFormed(labels, nextId)
      modifies this
      ensures Valid()
      ensures imageLabels == labels && nextImageLabelId == nextId
      ensures images == old(images) && datasets == old(datasets) && links == old(links) && labelRows == old(labelRows)
      ensures nextImageId == old(nextImageId) && nextDatasetId == old(nextDatasetId)
      ensures nextLinkId == old(nextLinkId) && nextLabelRowId == old(nextLabelRowId)
    {
      imageLabels, nextImageLabelId := labels, nextId;
    }
  }
}
